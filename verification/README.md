# A verified model of the udisk block file system

The repository stores files on a raw block device from user space. This project
models that store and proves what it promises, together with three smaller parts
of the same repository: the token bucket, the INI parser and the integer helpers.

## The store

The device holds a super block, tables of directory, file and file block slots,
and after them data blocks of 4M. A file is a slot plus one file block slot that
lists up to 1000 block ids; free ids are in a pool. Everything a caller sees is
rebuilt at mount from the tables.

* `Geometry`, `Slots`, `Paths`, `DirTree` give the sizes, the slots with their
  checksums and page writes, path arithmetic and the directory tree.
* `Store` is the mounted file system as a value: five indexes, block lists, pool,
  open descriptors, device bytes and the slot tables in memory and on the device.
  `Calls` and `Runs` build the calls and whole runs of calls on it.
* `FileSystem.dfy` is the same file system as an object with the fields of the
  handle classes, updated in place step by step and loop by loop as the source
  does it; each method is proved equal to a state change of `Store`, `Calls` or
  `Runs`. `Facts` holds the pure facts that these methods rely on.
* `StoreProofs`, `CallProofs`: the invariant (indexes agree, pool and block lists
  are duplicate-free and disjoint, link counts, the directory tree) over all calls.
* `Contents` and `Namespace`: the store refines the simple picture of a set of
  directory paths, a file found at each place, descriptors that stand for files,
  and a byte sequence for each file.
* `PathProofs`, `PathCalls`, `Answers`: what the parts of a path are, what every call
  does on a directory and a name in it, and exactly when each call is done, refused
  or leaks.
* `Persist`, `PersistCalls`: the slot tables in memory and on the device agree with
  the state although every write flushes a page of neighbours.
* `Mount`, `MountLoops`, `MountProofs`, `Remount`, `Format`, `Sessions`: the mount
  scans, exactly which images they accept, and that a mount after any run, and over
  any number of runs with a mount after each, gives the run's state back.
* `Formatting`: formatting and opening a raw device through the range check.
* `Crash`, `CrashShrink`, `CrashShrinkMount`: what a mount finds when the power goes
  between two slot writes of an extension, an unlink or a shrink.
* `DeferredDelete`: deletion of open files. `Shadows`: a file and a directory of one
  path.
* `Faults`, `Witnesses`: inputs on which the source does not do what it should: the
  exact conditions, and one concrete input for each.

## The rest

* `Devices` (lib/device.cc): whole transfers from short and interrupted ones.
* `Layouts` (lib/super_block.cc): the regions of a formatted device.
* `TokenBucket`, `TokenBucketRuns`: the bucket in sequential use, and as a machine
  whose steps are the atomic loads and exchanges of many threads: linearizable,
  lock-free, and never above its rate.
* `Ini`, `IniProofs`, `IniRoundTrip`: the INI reader and writer. `IniLines`: a grammar
  of its lines, and that every line is read as the grammar says.
* `ConstexprMath`: bit scans, powers, clamped sums and casts.

## Where the source does not keep a promise

Each of these is a theorem that states exactly when it happens, followed by a lemma
at one concrete input.

* A file whose size is already inside its thousandth block cannot grow, not even
  within that block: the full-slot test comes before the need for blocks is looked
  at (`Faults.FullFileCannotGrow`, `StoreProofs.ExtendSucceedsIff`;
  `Witnesses.FullFileCannotGrow`).
* Renaming a file to a path that ends in a separator succeeds and stores an empty
  name, and the device can then not be mounted (`Faults.RenameToNothing`,
  `Remount.PersistedMounts`; `Witnesses.RenameLosesDevice`).
* Renaming a file to a name of 64 or more characters succeeds and stores the first
  64, and no path finds the file again (`Faults.RenamedIsFound`;
  `Witnesses.RenameLosesFile`). If another file has the stored name already, the
  indexes no longer agree (`CallProofs.RenameKeeps`).
* Renaming a directory leaves a tree in memory, and a device that can be mounted
  again, exactly when the target is free, the directory has no child directory, and
  it is not moved into itself (`DirTree.RenameKeepsTree`,
  `Faults.DirRenameLosesDevice`; `Witnesses.RenameIntoItself`).
* Renaming a directory answers -1 when the directory was renamed, and 0 when all was
  well but the new parent does not exist (`Faults.RenameAnswers`;
  `Witnesses.RenameIntoItself`, `Witnesses.RenameIntoNowhere`).
* A file can be created on, or renamed to, the path of a directory, and then neither
  opened nor unlinked (`Shadows.StepShadow` says for every call when it keeps files
  and directories apart, `Shadows.CreateOverDirectory`;
  `Witnesses.CreateOnDirectory`).
* With no descriptor left, `open` and `dup` answer -1 and open the file all the same,
  because the -1 is kept in an unsigned variable; when that happens twice the link
  count of a file is wrong for good (`CallProofs.AddOpenKeeps`, `Runs.StepKeeps`;
  `Witnesses.OpensWithoutDescriptor`).
* A shrink that fails half-way leaves a slot with a stale checksum in memory; a later
  write of another slot in the same page puts it on the device, and mount rejects it
  (`Faults.FailedShrinkThenWrite`, `Faults.FailedShrinkPoisonsPage`;
  `Witnesses.FailedShrinkLosesDevice`, where two checksums, of which nothing is
  known, would have to agree by chance).
* A crash inside a shrink can leave a device that cannot be mounted: after the heir's
  file slot is written when both file slots lie in one page, and while both file block
  slots list an inherited block (`CrashShrink.CrashInShrink`;
  `Witnesses.CrashLosesDevice`). In all other cases the mount holds every other file
  and one of the two versions of this one (`CrashShrinkMount.CrashInShrinkKeeps`).
* A crash during the first extension of an empty file leaves a file of size zero
  that owns a file block; for files that had bytes the crash is harmless
  (`Crash.CrashInExtend`; `Witnesses.CrashLeavesBlocks`).
* The comment over `OpenFile::pwrite` promises zeros in a gap opened by a write past
  the end; the code leaves what the blocks held before, so the gap is zero exactly
  when they held zeros (`Contents.PwriteGap`, `Contents.TruncateGap`;
  `Witnesses.GapIsNotZero`).
* An INI document survives saving and loading exactly when no section header has a
  comment on its right; `SaveAs` writes it behind the line break
  (`IniRoundTrip.RoundTripIff`; `Witnesses.RightCommentIsLost`).
* A device that reaches to the end of its tables but not to its first data block, of
  675041280 bytes or more and less than 675282944, is formatted with success and can
  never be mounted; its block count is computed by an unsigned subtraction that wraps
  (`Formatting.FormattedButLost`, `Layouts.BlocksFitIff`;
  `Witnesses.FormattedAndLost`).
* There are 100000 block locks, taken by block id without a test, so every block has
  one exactly on devices of at most 100000 blocks (`Faults.LocksSuffice`;
  `Witnesses.BlockWithoutLock`).
* `constexpr_ceil` with a negative rounding unit is right for negative values only
  (`ConstexprMath.CeilIsExact`; `Witnesses.NegativeUnit`).

## Model

| member | source | states |
|---|---|---|
| Format.AllRuns | lib/file_system.cc:457-467 | From a formatted device, after every permitted run of calls, whatever failed in it: all indexes agree, pool and block lists are disjoint and in range, link counts are right, memory slots show the state, contents, names and descriptors follow the simple specification call by call; without a leak no block is lost and the device equals memory |
| Format.AllRunsRemount | lib/file_handle.cc:13-78 | After every leak-free run a mount succeeds exactly when every file has a name, as all have unless the run renamed a file to a path ending in a separator; it gives back the same tree, names, sizes, block lists, pool and free file block slots, every file under its name with its bytes, and a state that is good again |
| Sessions.AllSessions | lib/file_system.cc:457-467 | The same over any number of leak-free runs with a mount after each: every mount succeeds exactly when every file has a name and gives back the state in which the run ended |
| Sessions.SessionsFromFormat | lib/file_system.cc:369-393 | The same from a freshly formatted device on |
| Sessions.LeakThenMount | lib/file.cc:480-530 | A call that leaks has not written to the device: a mount before any further slot write gives back the state before the call |
| Sessions.LeakLeavesDevice | lib/file.cc:264-377 | No call that leaks changes a slot or a byte on the device |
| PersistCalls.StepNamed | lib/file.cc:138-140 | Only a file rename to a path that ends in a separator leaves a file without a name |
| Runs.RunKeeps | lib/file.cc:264-377 | The invariant holds after every run; conservation of blocks after every run in which no call leaked |
| Runs.StepKeeps | lib/file_handle.cc:491-538 | One call keeps the invariant exactly when it is permitted: a rename is safe and an opened file gets a descriptor that is not in use; unless it leaks it then loses no block |
| Contents.StepRefines | lib/file.cc:856-909 | One call changes the map from files to byte sequences as the simple specification says: truncate keeps the common prefix, pwrite replaces exactly its range, create adds an empty file, unlink and close remove at most their file, nothing else changes any byte; a call that fails changes nothing |
| Contents.RunRefines | lib/file.cc:593-605 | The same, call by call, over every run |
| Contents.PreadReadsContents | lib/file.cc:856-876 | pread yields exactly the part of the contents from the offset to the end of the request or of the file |
| Contents.ShrinkContents | lib/file.cc:443-591 | A shrink keeps the bytes below the new size bit for bit and every byte of every other file |
| Contents.ExtendContents | lib/file.cc:264-377 | An extension keeps all old bytes of the file and every byte of every other file |
| Contents.TruncateGap | lib/file.cc:593-605 | The bytes that truncate adds are what the blocks held before, zeros exactly when they held zeros |
| Contents.PwriteGap | lib/file.cc:881-909 | So are the bytes between the old end and the offset of a write past it |
| Geometry.PutHits | lib/file.cc:783-850 | After a write the device holds, at the address of each written position, the byte that was written |
| Geometry.PutMisses | lib/file.cc:783-850 | A write changes no address but those of the written positions |
| Geometry.AddrInjective | lib/file.cc:719-722 | Two positions of a file with distinct block ids have distinct device addresses |
| Geometry.AddrDisjoint | lib/file.cc:719-722 | Positions of files without a common block have distinct device addresses |
| Namespace.StepNames | lib/file_system.cc:163-210 | Every call that succeeds, safe or not, changes the set of directory paths and the file found at every place exactly as the simple specification says; a failed call changes no name |
| Namespace.StepOpens | lib/file_handle.cc:638-745 | open and dup add the next descriptor, which stands for the right file and was not in use exactly when one is left or the unsigned -1 is not taken; close removes its own, no other call touches descriptors |
| Namespace.RunNames | lib/file_system.cc:152-210 | Names and descriptors follow the simple specification over every run |
| Namespace.RenameFileNames | lib/file.cc:115-161 | After a rename to any target the file is found at the stored name in the target's directory and no longer at the old place, and every other place is as before |
| Namespace.RenameDirNames | lib/directory.cc:254-290 | After a directory rename its files are found under the new path and none under the old one; if the new path was taken the renamed directory is lost and the other stays |
| Namespace.UnlinkNames | lib/file_handle.cc:491-538 | unlink takes the name away exactly when the file is not open |
| Namespace.CloseNames | lib/file_handle.cc:696-723 | close takes a name away exactly when the file was deleted and this was its last descriptor |
| Namespace.CreateNames | lib/file_handle.cc:409-445 | A created file is found at its place and all other places are as before; for a directory and a name this is `PathCalls.CreateJoined` |
| Namespace.MkdirNames | lib/dir_handle.cc:447-495 | A new directory path appears and no file is found in it |
| Namespace.RmdirNames | lib/dir_handle.cc:497-550 | Exactly one directory path disappears and no file is lost |
| PathProofs.GetDirNameIs | lib/comm_utils.h:26-40 | The parent of every path that has a name in it, repeated separators included: what stands before the last name, with one separator; the path itself when more than one separator ends it |
| PathProofs.EveryPath | lib/comm_utils.h:26-40 | Every path but one of separators alone has such parts, and those have the root as parent (OnlySlashes) |
| PathProofs.ParentIs | lib/comm_utils.h:26-40 | For a directory path `dir` that ends in one separator and a name without one: `dir` is the parent of `dir + name`, also with a separator behind it, and `name` is its file name |
| PathCalls.CreateJoined | lib/file_handle.cc:409-445 | Creating `dir + name`: when it is done, and that then an empty file of that name in the slot of `dir` is found there and at no other place |
| PathCalls.OpenJoined | lib/file_handle.cc:638-694 | Opening `dir + name`: when it is done, and that then the next descriptor stands for the file of that name in `dir`, or for a new one |
| PathCalls.UnlinkJoined | lib/file_handle.cc:491-538 | Unlinking `dir + name`: when it is done; the name is gone, or with an open descriptor the file is marked and keeps it |
| PathCalls.RenameJoined | lib/file_system.cc:163-189 | Renaming a file `dir + name` to `dir2 + name2`: when it is done, and that the file is then found in `dir2` under the first 64 characters of `name2` |
| PathCalls.MkdirJoined | lib/dir_handle.cc:447-495 | Making `dir + name`, with or without a separator at its end: when it is done, and that the new directory is then a child of `dir` without children |
| PathCalls.RmdirJoined | lib/dir_handle.cc:497-550 | Removing it: done exactly when it exists, has no child and no file and no file has its path; it is then no child of `dir` |
| PathCalls.RenameDirJoined | lib/dir_handle.cc:552-588 | Renaming a directory: when it is done, and where its files are found then |
| PathCalls.AncestorIs | lib/comm_utils.h:26-40 | The ancestors of a directory path are the paths of the first names in it |
| PathCalls.PrefixesAreLive | lib/dir_handle.cc:228-286 | Every directory on the way to a live one is live |
| Answers.StepDoneIff | lib/file_system.cc:152-241 | For every kind of call: it is done exactly when its condition on names, paths, sizes, free lists and descriptors holds |
| Answers.StepLeaksIff | lib/file.cc:264-377 | It fails after taking slots exactly when a growth does not fit the file block slot, or a shrink lacks a file block slot or a block |
| Answers.GrowthLoses | lib/file.cc:325-348 | A growth that leaks has taken blocks that are then neither free nor in a file: at least one is lost to all further calls |
| Answers.ShrinkLoses | lib/file.cc:480-530 | A shrink that leaks has taken a file slot, and a file block slot where there is one, and no block |
| Answers.RefusedIsQuiet | lib/file_system.cc:152-241 | A call that is refused changes nothing but at most the order of the free file block slots |
| Answers.PwriteDoneIff | lib/file.cc:881-909 | A write is done exactly when it is empty, lies inside the file, or the device, the pool and the file's block list allow the growth |
| Answers.StepMarks | lib/file_handle.cc:491-538 | The files that are marked as deleted after a call: those that were, and the one of an unlink that is done |
| Answers.StepFds | lib/fd_handle.h:26-48 | The descriptor pool is a queue: open and dup take its head, close appends its own |
| Answers.OpenThenRead | lib/file_system.cc:222-230 | What is read through the number that open answers is the file of the path as it was before, and nothing when it is new |
| StoreProofs.ExtendKeepsInv | lib/file.cc:264-377 | Every outcome of an extension, refused, overflowed or done, keeps the invariant |
| StoreProofs.ExtendKeepsConserved | lib/file.cc:264-377 | An extension that is done or refused loses no block and leaves exactly the blocks of each file's size |
| StoreProofs.ExtendSucceedsIff | lib/file.cc:295-348 | When an extension succeeds, as an exact condition on sizes, pool and free slots |
| StoreProofs.CopyOnTruncate | lib/file.cc:443-591 | A shrink ends with exactly the blocks of the new size, inherits the whole ones, takes at most one from the pool, frees every other block once, moves the file to a new slot and touches no other file, name or descriptor |
| StoreProofs.ShrinkKeepsInv | lib/file.cc:79-113 | The shrink with its recycling of the parent keeps the invariant |
| StoreProofs.ShrinkKeepsConserved | lib/file.cc:79-113 | It loses no block |
| StoreProofs.ShrinkLeakKeepsInv | lib/file.cc:480-530 | A shrink that fails half-way keeps the invariant although it has taken slots |
| StoreProofs.AddFileKeepsInv | lib/file_handle.cc:293-305 | A new file enters all three indexes consistently |
| StoreProofs.DropFileKeepsInv | lib/file_handle.cc:447-489 | A removed file leaves all indexes and its blocks are free once |
| StoreProofs.MoveFileKeepsInv | lib/file.cc:115-161 | A file rename keeps the indexes in agreement exactly when the new name is not another file's |
| StoreProofs.CeilIsLeast | lib/comm_utils.h:13-13 | The rounded-up block count is the least number of blocks that holds the size |
| CallProofs.RenameKeeps | lib/file_system.cc:163-189 | A rename keeps the invariant exactly when it fails or is safe: a file's stored name is not another file's, a directory move leaves a tree |
| CallProofs.RmdirKeeps | lib/dir_handle.cc:497-550 | rmdir keeps the invariant, and no file had the removed directory as its home |
| CallProofs.OpenMeansLinked | lib/file_handle.cc:696-723 | Every open descriptor stands for a live file with a positive link count |
| CallProofs.AddOpenKeeps | lib/file_handle.cc:671-690 | A new entry keeps the invariant exactly when its descriptor was not in use |
| DirTree.AddKeepsTree | lib/dir_handle.cc:228-286 | Adding a directory below an existing one keeps the tree |
| DirTree.RemoveKeepsTree | lib/dir_handle.cc:497-550 | Removing a directory without children keeps the tree |
| DirTree.RenameKeepsTree | lib/directory.cc:254-290 | The exact condition under which a directory rename leaves a tree behind |
| DirTree.AncestorsAreLive | lib/comm_utils.h:26-40 | Every ancestor of a live directory is live and the chain ends at the mount point; which paths these are says `PathCalls.AncestorIs` |
| DirTree.RemoveLeavesNoOrphan | lib/dir_handle.cc:497-550 | A removed directory has no surviving descendant |
| DeferredDelete.UnlinkDefers | lib/file_handle.cc:491-538 | unlink of an open file only marks it; of any other it frees every block |
| DeferredDelete.CloseRemovesIff | lib/file_handle.cc:696-723 | close removes the file exactly when it is marked and this was its last descriptor; its blocks are then free and it is in no index |
| DeferredDelete.RunNoZombie | lib/file_handle.cc:696-723 | Over every run no file is left that is deleted and has no descriptor |
| Persist.ExtendDonePersists | lib/file.cc:350-372 | After an extension the device equals memory and every checksum matches |
| Persist.ShrinkPersists | lib/file.cc:556-591 | After a shrink the device equals memory, although four of its six slot writes flush a page with the slots of other files |
| Persist.ShrinkSlots | lib/file.cc:556-591 | After a shrink every live object is shown by its slots and every free slot is clean |
| PersistCalls.StepTables | lib/file.cc:16-42 | Every call keeps memory slots in line with the state, and the device too unless it leaks |
| PersistCalls.RunKeepsTables | lib/file.cc:16-42 | The same over every run, so the checks and assertions on free slots never fail |
| MountProofs.MountAcceptsIff | lib/file_block_handle.cc:9-78 | Which images a mount accepts, any image at all, as an exact condition on the slots: slots of temporary files are cleared, and a slot that such a slot names is sealed before its checksum is looked at |
| MountProofs.MountDeviceIff | lib/super_block.cc:16-32 | The same with the checksum and the magic number of the super block before it |
| MountProofs.MountedFds | lib/fd_handle.h:19-24 | Every mount starts with no descriptor in use and all of them free, in order |
| MountProofs.MountChecksBlocks | lib/file_block_handle.cc:14-76 | For an arbitrary image, temporary slots and stale data included: a mount that succeeds means no block id is listed twice, every id is below the block count, every owner exists, and the pool is exactly the complement |
| MountProofs.ScanChecksBlocks | lib/block_handle.h:47-55 | The scan of file block slots alone establishes this, whatever files and handles it is given |
| MountProofs.ScanDirsIff | lib/dir_handle.cc:12-48 | Which directory tables are accepted, and what the scan then knows of them |
| MountProofs.ScanFilesIff | lib/file_handle.cc:13-78 | Which file tables are accepted, temporary slots included, and what the scan then knows of them |
| MountProofs.CarveIff | lib/block_handle.h:47-55 | A list of ids can be taken out of the pool exactly when they are distinct and in it, and the pool loses exactly them |
| MountLoops.InitializeDirs | lib/dir_handle.cc:12-48 | The slot loop computes the specified scan, handles and paths being inverse to each other |
| MountLoops.LinkChildren | lib/dir_handle.cc:50-65 | The second loop gives every directory exactly the children whose parent path it is, in whatever order the map is walked |
| MountLoops.InitializeFiles | lib/file_handle.cc:13-78 | The file slot loop computes the specified scan |
| MountLoops.InitializeFileBlocks | lib/file_block_handle.cc:9-78 | The file block loop computes the specified scan and carves the pool |
| MountLoops.InitializePool | lib/block_handle.cc:7-15 | The pool starts with exactly the ids below the block count |
| MountLoops.InitializeSuper | lib/super_block.cc:16-32 | Checksum and magic number |
| MountLoops.TakeIds | lib/file_block_handle.cc:62-70 | Taking ids one by one is the specified carving |
| MountLoops.Initialize | lib/file_system.cc:457-467 | The super block's test and the initialisations of the handles in order are the mount |
| Remount.RemountRebuilds | lib/file_handle.cc:13-78 | A mount of a persisted state succeeds exactly when every file has a name, and gives back the same tree, files, block lists, pool and free slots |
| Remount.PersistedMounts | lib/file_handle.cc:40-45 | What a leak-free run leaves on the device is accepted exactly when every file has a name |
| Remount.RemountIsGood | lib/file_block_handle.cc:9-78 | The remounted state is good and persisted again |
| Remount.RemountKeepsContents | lib/file_block_handle.cc:38-72 | A remount keeps names and the bytes of every file |
| Format.FormatMounts | lib/file_system.cc:369-393 | A formatted device mounts to an empty good state in which no block is lost |
| Formatting.FormatSucceedsIff | lib/file_system.cc:369-387 | Format succeeds exactly when the device reaches to the end of its tables, whatever was on it, and has then written the super block and all tables |
| Formatting.FormatThenOpen | lib/shm_manager.cc:155-190 | Opening a device after formatting it succeeds exactly when the device reaches to its data start, and the state is then empty and good |
| Formatting.FormattedButLost | lib/device.cc:206-224 | So the devices that are formatted with success and cannot be opened are those in between |
| Formatting.OpenDeviceIff | lib/shm_manager.cc:155-190 | Which devices can be opened, whatever is on them |
| Formatting.WriteTables | lib/super_block.cc:108-113 | The four writes of Format through the range check: they succeed exactly on a device that reaches so far, and the tables then stand one behind the other |
| Formatting.ReadTables | lib/shm_manager.cc:161-172 | Reading everything up to the data start succeeds exactly when the device reaches there |
| Formatting.SessionsOnDevice | lib/file_system.cc:369-387 | All that is promised of sessions holds on a device from its formatting on |
| Crash.CrashInExtend | lib/file.cc:350-372 | A crash between the two writes of an extension: mount succeeds when every file has a name, block lists stay disjoint, every file keeps its bytes; the state is fully good exactly when the file was not empty |
| Crash.CrashInUnlink | lib/file_handle.cc:520-530 | A crash between the two writes of an unlink: mount succeeds when every file has a name, block lists stay disjoint, every other file keeps its bytes, the victim keeps name and size without a block; the state is fully good exactly when the file had no file block |
| CrashShrink.CrashInShrink | lib/file.cc:547-591 | Power cut after any number of the six slot writes of a shrink: the exact condition under which the device can still be mounted |
| CrashShrink.AfterIs | lib/file.cc:547-591 | Which slots are in memory and on the device after each of the writes |
| CrashShrink.SixthWriteIsLast | lib/file.cc:547-591 | After the sixth the device is that of the finished shrink |
| CrashShrinkMount.CrashInShrinkKeeps | lib/file.cc:547-591 | In every case in which the cut device can be mounted: block lists are disjoint and not free, all other files keep name, size and bytes, and which of the two slots the file's name finds with what size and bytes |
| CrashShrinkMount.ScanFindsLast | lib/file_handle.cc:293-297 | Of several slots that are entered under one name the last has it |
| Faults.RenameToNothing | lib/file_system.cc:163-189 | After a file rename that succeeds the device can be mounted exactly when the target does not end in a separator |
| Faults.RenamedIsFound | lib/file.h:79-83 | After a file rename that succeeds the file is found at its target, and by any path at all, exactly when the name is not empty and shorter than the name field |
| Faults.RenameAnswers | lib/dir_handle.cc:578-587 | When a rename answers 0, and when it renames: the two agree for files and never for directories |
| Faults.DirRenameLosesDevice | lib/directory.cc:254-290 | After a directory rename that is carried out the device can be mounted exactly when the target was free, there was no child directory, and it was not moved into itself |
| Faults.LocksSuffice | lib/block_handle.h:69-71 | Every block that a file has or may get has a lock exactly when the device has at most as many blocks as there are locks |
| Shadows.StepShadow | lib/file_handle.cc:252-291 | Which call, on which state, keeps files and directories from sharing a path, for every call in both directions |
| Shadows.RunShadow | lib/file_system.cc:163-189 | Over a run in which each call meets its condition they never share one |
| Shadows.CreateOverDirectory | lib/file_handle.cc:491-515 | A file that was just created can be opened and unlinked exactly when no directory has its path |
| Faults.FullFileCannotGrow | lib/file.cc:295-348 | An extension that needs no block fails exactly for a file in its last block |
| Faults.FailedShrinkPoisonsPage | lib/file.cc:480-530 | After a failed shrink and the write of any file's slot in the same page the device mounts exactly when the left slot's old and new checksums agree |
| Faults.FailedShrinkThenWrite | lib/file.cc:480-530 | A truncate call, then the write of any file slot: the device mounts exactly when the shrink did not run out, or the left slot is sealed by chance, in another page, or itself the one that is written |
| Faults.OneSlotDecides | lib/file_handle.cc:13-78 | A good image with one file slot overwritten is mounted exactly when that slot is good |
| Witnesses.FullFileCannotGrow | lib/file.cc:295-348 | A file of 999 blocks and one byte that cannot get a second |
| Witnesses.RenameLosesDevice | lib/file.cc:138-140 | "/a" to "/b/" |
| Witnesses.RenameLosesFile | lib/file.h:79-83 | "/a" to a name of 64 characters |
| Witnesses.RenameIntoItself | lib/directory.cc:254-290 | "/a" to "/a/b": the tree and the device are lost |
| Witnesses.OpensWithoutDescriptor | lib/fd_handle.h:28-40 | Opening a file once and twice more than there are descriptors |
| Witnesses.FailedShrinkLosesDevice | lib/file.cc:480-530 | Three calls on a device of one block |
| Witnesses.CrashLosesDevice | lib/file.cc:547-591 | Truncating two blocks to one, cut after the second write |
| Witnesses.CrashLeavesBlocks | lib/file.cc:350-372 | The first byte of a file, cut after the first write |
| Witnesses.GapIsNotZero | lib/file.cc:878-881 | On a device that holds a seven there, a file grown to one byte holds a seven |
| Witnesses.RightCommentIsLost | lib/config_parser.cc:202-209 | The text "[a]#c" |
| Witnesses.NegativeUnit | token_bucket/constexpr_math.h:130-135 | Five and minus three |
| Witnesses.FormattedAndLost | lib/super_block.cc:96-99 | A device of 675041280 bytes |
| Witnesses.BlockWithoutLock | lib/block_handle.h:69-71 | A device of 100001 blocks |
| Witnesses.RenameIntoNowhere | lib/dir_handle.cc:578-587 | "/a" to "/x/b" where there is no "/x" |
| Witnesses.CreateOnDirectory | lib/file_handle.cc:409-445 | create "/a" where "/a" is a directory |
| FileSystems.MountFileSystem | lib/file_system.cc:457-467 | The super block and the slots are scanned; there is an object exactly when every scan succeeds, and it shows what they found |
| FileSystems.FileSystem.ExtendFile | lib/file.cc:264-377 | Step by step, the extension with its three outcomes; the assertions on fresh slots hold |
| FileSystems.FileSystem.Reserve | lib/file.cc:264-327 | How many blocks are asked for and what is given back when there are none |
| FileSystems.FileSystem.PlaceBlocks | lib/file.cc:328-377 | Ids go into the slot until it is full; then file block before file slot are written |
| FileSystems.FileSystem.AddBlockIds | lib/file_block.h:51-62 | The filling loop appends ids one by one and stops at a full slot |
| FileSystems.FileSystem.GetFreeBlockId | lib/block_handle.cc:17-36 | It fails exactly when the pool is too small; else it hands out that many distinct ids and removes them |
| FileSystems.FileSystem.PutFreeBlockId | lib/block_handle.cc:38-51 | It puts all ids back and fails only on an empty list |
| FileSystems.FileSystem.GetFileBlock | lib/file_block_handle.cc:115-132 | The head of the free list, whose slot passes both assertions |
| FileSystems.FileSystem.ShrinkFile | lib/file.cc:443-591 | Step by step, the shrink with its refused, leaking and finished outcomes |
| FileSystems.FileSystem.GatherBlocks | lib/file.cc:480-545 | The heir's blocks: the inherited prefix and a fresh copy of a partial tail |
| FileSystems.FileSystem.CopyData | lib/file.cc:379-418 | The buffered copy moves exactly the bytes of the stretch |
| FileSystems.FileSystem.FinishShrink | lib/file.cc:547-591 | Index swap, slot writes in the source's order, recycling |
| FileSystems.FileSystem.Recycle | lib/file.cc:79-113 | The loop frees exactly the blocks that were not inherited, then both slots |
| FileSystems.FileSystem.Ftruncate | lib/file.cc:593-605 | The three-way branch of truncate is the specified call |
| FileSystems.FileSystem.CutAtBlocks | lib/file.cc:690-745 | The do-loop of ReadData and WriteData: pieces tile the range and each lies where the file's blocks are on the device |
| FileSystems.FileSystem.ReadData | lib/file.cc:690-761 | A file without a file block answers -1 and reads nothing; else the pieces read give the caller's buffer exactly the addressed bytes and nothing else |
| FileSystems.FileSystem.WriteData | lib/file.cc:783-850 | The pieces written are the byte-by-byte write of the reference definition |
| FileSystems.FileSystem.PreadFile | lib/file.cc:856-876 | pread with its cut at the end of the file, also for a file that lost its file block |
| FileSystems.FileSystem.PwriteFile | lib/file.cc:881-909 | pwrite, growing the file first when it has to; it answers the size exactly when the write is empty, inside the file, or the file can grow, and else -1 |
| FileSystems.FileSystem.PwriteFd | lib/file_system.cc:232-241 | A write through a descriptor is the specified step of a run; it answers the size exactly when the descriptor is open and the write is empty, inside its file, or the file can grow |
| FileSystems.FileSystem.PreadFd | lib/file_system.cc:222-230 | A read through a descriptor gives exactly the requested part of the file's contents |
| FileSystems.FileSystem.TruncatePath | lib/file_system.cc:191-199 | Truncation by path is the specified step of a run |
| FileSystems.FileSystem.TruncateFd | lib/file_system.cc:201-210 | Truncation by descriptor is the specified step of a run |
| FileSystems.FileSystem.CreateFile | lib/file_handle.cc:409-445 | Creation with all its reasons to fail |
| FileSystems.FileSystem.UnlinkPath | lib/file_handle.cc:491-538 | unlink with its reasons to fail, deferred for open files |
| FileSystems.FileSystem.RemoveFile | lib/file_handle.cc:447-489 | Blocks, slot and indexes of a file are given up in order |
| FileSystems.FileSystem.RemoveAllFileBlock | lib/file_block.cc:52-65 | The collecting loop, the put of all ids, the cleared slot |
| FileSystems.FileSystem.OpenPath | lib/file_handle.cc:638-694 | open with and without creation. It answers a number exactly when the file is there or can be made and a descriptor is left: the head of the pool, which was not in use, and its entry is then the file found at the path or the new one. With no descriptor left the object stays good exactly when the unsigned -1 was not in use |
| FileSystems.FileSystem.DupFd | lib/file_handle.cc:725-745 | dup: the number is the head of the pool, and its entry is the file of the other descriptor; else -1 |
| FileSystems.FileSystem.CloseFd | lib/file_handle.cc:696-723 | close, and removal at the last close of a deleted file |
| FileSystems.FileSystem.RenameFile | lib/file.cc:115-161 | Out of the indexes, new name, back into them, slot written |
| FileSystems.FileSystem.RenamePath | lib/file_system.cc:163-189 | The dispatch between files and directories, and the answer; the object stays good when the rename is safe |
| FileSystems.FileSystem.RenameDirectory | lib/dir_handle.cc:552-588 | Checks and rename of a directory, and its answer |
| FileSystems.FileSystem.CreateDirectory | lib/dir_handle.cc:447-495 | mkdir with its reasons to fail |
| FileSystems.FileSystem.DeleteDirectory | lib/dir_handle.cc:497-550 | rmdir with its reasons to fail |
| FileSystems.FileSystem.CheckFileExist | lib/dir_handle.cc:143-178 | Whether a file has the path or, where asked, the parent's path |
| FileSystems.FileSystem.SaveFile | lib/file.cc:16-42 | A slot write seals the slot and puts the aligned page on the device |
| FileSystems.FileSystem.SaveDir | lib/directory.cc:134-153 | The same for a directory slot |
| FileSystems.FileSystem.SaveBlock | lib/file_block.cc:21-40 | A file block slot is a page of its own |
| Facts.SwapIsHeirWrites | lib/file.cc:547-582 | Setting the child early in memory, so that it may reach the device before its own write, makes no difference in the end |
| Facts.PutPiece | lib/file.cc:772-781 | Writing a piece as one run equals writing its bytes one by one |
| Facts.FreeHeads | lib/file_handle.cc:157-168 | Slots taken from free lists are clean, so the checks on them never fail |
| Devices.Device.WrapFull | lib/device.cc:35-52 | For every sequence of short transfers and interruptions: the first `moved` bytes were transferred at the offset and nothing else changed; a result below the request means a transfer of zero bytes or the end of the device; it terminates |
| Devices.Device.Pread | lib/device.cc:186-194 | A range past the device is refused untouched; otherwise exactly the returned number of bytes was read |
| Devices.Device.Pwrite | lib/device.cc:196-204 | The same for writing |
| Layouts.SuperBlock.FormatAllMeta | lib/super_block.cc:34-104 | The layout computed field by field, as one closed form |
| Layouts.RegionsInOrder | lib/super_block.cc:57-94 | Regions follow each other without overlap and data starts block-aligned after them |
| Layouts.PagesStayInside | lib/file_handle.cc:368-372 | Every slot lies in the page that is written for it, and that page in its own region |
| Layouts.BlocksFitIff | lib/super_block.cc:96-99 | All data blocks lie on the device exactly when the device reaches to the data start |
| Layouts.AddressesDiffer | lib/file.cc:719-722 | Block and offset determine the address and are determined by it |
| TokenBucketRuns.RunsAreLinear | token_bucket/token_bucket.h:137-161 | Every interleaving of loads and exchanges, with spurious failures and any clocks, does what its calls do one at a time in the order of their last steps, with the same answers |
| TokenBucketRuns.RateBound | token_bucket/token_bucket.h:317-336 | Between two granted requests of any schedule no more tokens are handed out than one burst, the rate over their clock difference, and what was given back |
| TokenBucketRuns.LogMeans | token_bucket/token_bucket.h:137-161 | Each logged call in tokens: a consume was granted exactly when the bucket then had as many and left so many fewer; a return was granted and added its own |
| TokenBucketRuns.NoThreadIsStuck | token_bucket/token_bucket.h:157-160 | In every machine that any schedule reaches, three undisturbed steps of a thread that is in a call finish it, with the answer that the tokens of that moment give |
| TokenBucketRuns.AloneConsumes | token_bucket/token_bucket.h:317-336 | An undisturbed consume is granted exactly when the tokens are there, and takes them |
| TokenBucketRuns.AloneReturns | token_bucket/token_bucket.h:196-205 | An undisturbed return succeeds and moves the zero time back by its tokens |
| TokenBucketRuns.ExchangeFinishes | token_bucket/token_bucket.h:157-160 | In every reached machine an exchange that finds the value it expects, and does not fail spuriously, finishes the call, and the tokens were there |
| TokenBucketRuns.SomeCallFinishes | token_bucket/token_bucket.h:198-204 | Lock-freedom: between a thread's read and its next step either some call is granted or that step finishes the thread's own |
| TokenBucketRuns.CallsAreLogged | token_bucket/token_bucket.h:137-161 | A thread leaves a call only with its answer in the log |
| TokenBucket.SpentIs | token_bucket/token_bucket.h:148-156 | The update of the zero time agrees with its closed form |
| TokenBucket.TokensAfter | token_bucket/token_bucket.h:148-156 | What is left after a grant is what was there less the grant |
| TokenBucket.Bucket.Take | token_bucket/token_bucket.h:137-161 | One thread's consume with its callback |
| TokenBucket.Bucket.Consume | token_bucket/token_bucket.h:317-336 | All or nothing, and exactly when |
| TokenBucket.Bucket.ConsumeOrDrain | token_bucket/token_bucket.h:353-370 | As many tokens as there are, at most the request |
| TokenBucket.Bucket.ReturnTokens | token_bucket/token_bucket.h:196-205 | At any later or earlier time `n` tokens more, or fewer, have been earned; a return raises the tokens available by `n` up to the burst size |
| TokenBucket.Bucket.ConsumeWithBorrow | token_bucket/token_bucket.h:404-429 | At most two rounds; the zero time moves to its closed form and the wait is until the tokens are earned |
| TokenBucket.Bucket.SetCapacity | token_bucket/token_bucket.h:541-543 | Afterwards the bucket holds the tokens asked for |
| TokenBucket.Bucket.Reset | token_bucket/token_bucket.h:519-529 | The tokens stay, cut at the new burst size; a debt is forgiven |
| TokenBucket.StartsInOrder | token_bucket/token_bucket.h:404-429 | Borrowed start times do not go back when clocks do not |
| TokenBucket.WindowBounded | token_bucket/token_bucket.h:404-429 | From the clock of any borrow to the start of any later one at most a burst above the rate is granted |
| Ini.TrimInPlace | lib/config_parser.cc:753-776 | The two loops take off exactly the white space at both ends |
| Ini.ConfigParser.Load | lib/config_parser.cc:121-188 | The line loop reads what the specification reads, with the same error; `IniLines` says what that is, line by line |
| Ini.ConfigParser.UpdateSection | lib/config_parser.cc:54-97 | The three ways a section line is refused, or the new section |
| Ini.ConfigParser.AddKeyValuePair | lib/config_parser.cc:99-119 | The item that a line adds to the current section, or the error; `IniLines.PairIs` and `IniLines.BareIs` say which |
| Ini.ConfigParser.SaveAs | lib/config_parser.cc:192-237 | The nested loops write the specified text |
| Ini.ConfigParser.FindSection | lib/config_parser.cc:239-247 | Whether a section of that name exists |
| IniProofs.LoadIsGood | lib/config_parser.cc:121-188 | A loaded document starts with the unnamed section, has unique section names, trimmed keys and values and whole-line comments |
| IniProofs.LinesOfUnlines | lib/config_parser.cc:144-144 | Reading lines undoes writing them, with or without a last line break |
| IniProofs.TrimGives | lib/config_parser.cc:753-776 | Trimming leaves one stretch of the text in order, without white space at its ends, and takes away nothing but white space |
| IniRoundTrip.RoundTripIff | lib/config_parser.cc:192-237 | Saving and loading again gives the same document exactly when no section has a right-hand comment |
| IniRoundTrip.ReloadIsSame | lib/config_parser.cc:192-237 | Without such comments the reload succeeds with equal sections, order, items and comments |
| IniRoundTrip.ReloadIsPlain | lib/config_parser.cc:202-209 | No reload ever brings a section's right-hand comment back |
| IniRoundTrip.SavedIsPrinted | lib/config_parser.cc:192-237 | The saved text line by line: comment lines, header, items, and what is left unfinished on a line by a section's right-hand comment |
| IniLines.SplitIs | lib/config_parser.cc:787-812 | With a separator: what stands before the first and what stands behind it, each a stretch of the text with only white space around it |
| IniLines.SplitNone | lib/config_parser.cc:787-812 | Without one: the trimmed text, and no separator found |
| IniLines.FeedIs | lib/config_parser.cc:121-188 | Every line of the grammar, with any white space between its parts and any right-hand comment, is read as it says: key and value of an item, the name of a section, a comment, or which error |
| IniLines.EveryLine | lib/config_parser.cc:121-188 | The grammar leaves no line out |
| IniLines.LoadIsRead | lib/config_parser.cc:121-188 | So Load of any text is the reference reader on its lines |
| IniLines.SettingIsRead | conf/bfs.cnf:1-2 | A section with a setting, in the form that the repository's own files have, is read as that section, key and value |
| ConstexprMath.FindFirstSetIsExact | token_bucket/constexpr_math.h:155-176 | For every width and every nonzero value, signed or not: one more than the number of factors two |
| ConstexprMath.FindLastSetIsExact | token_bucket/constexpr_math.h:145-153 | The position of the highest bit; for negative values the sign bit |
| ConstexprMath.Log2IsExact | token_bucket/constexpr_math.h:104-128 | Floor and ceiling of the logarithm |
| ConstexprMath.PowIsExact | token_bucket/constexpr_math.h:137-143 | In an unsigned type square and multiply is repeated multiplication, modulo the wrap-around |
| ConstexprMath.ConstexprPow | token_bucket/constexpr_math.h:137-143 | For any base, negative ones included: when the power fits the type no product on the way overflows and the result is the power |
| ConstexprMath.AddClamped | token_bucket/constexpr_math.h:178-200 | The sum clamped to the type, with no overflow on the way |
| ConstexprMath.SubClamped | token_bucket/constexpr_math.h:202-229 | The difference clamped to the type, with no overflow on the way |
| ConstexprMath.ClampCast | token_bucket/constexpr_math.h:265-302 | The nearest value of the target type, for every pair of integer types |
| ConstexprMath.CeilIsExact | token_bucket/constexpr_math.h:130-135 | The value itself for a rounding unit of zero; else the least multiple that is not below the value, exactly when the unit is positive or the value negative |
| ConstexprMath.CeilDefinedIff | token_bucket/constexpr_math.h:130-135 | Exactly when no value on the way leaves the type |
| ConstexprMath.ConstexprMax | token_bucket/constexpr_math.h:32-39 | The loop's result is one of the arguments and none is larger |
| ConstexprMath.ConstexprMin | token_bucket/constexpr_math.h:43-50 | The loop's result is one of the arguments and none is smaller |

## Left out

- FUSE callbacks, tools, shell, shared memory, device discovery, logging and daemonizing: input and output plumbing.
- Times, owners, modes, errno values, parent_size_ and nlink_ in slots: no property here depends on them.
- Checksums: any function of the other fields of a slot; the constants `Slots.SuperCrc`, `Slots.DirCrc`, `Slots.FileCrc` and `Slots.BlockCrc` have no value.
- Device errors inside store calls: there transfers are complete; short transfers are in `Devices`. A page write of metadata is one step.
- Objects: a File object is a number and its fields are kept in a map, so two handlers cannot hold two objects for one file; fields that the source keeps only in the slot (size, name, directory) are kept with the object as well, and `Persist` proves that slot and object always agree.
- The raw device inside the file system object is a sequence of bytes that is reassigned; array updates are in `Devices`.
- Threads in the store: each call is one step. The source lets reads and writes run without the file's lock, and its lock order differs between rename and truncate.
- FileSystems.FileSystem.CreateFile: temporary files are never made here, because their life ends with a mount or a last close and nothing else refers to them; mount still clears their slots, and the acceptance theorem covers them.
- FileSystems.FileSystem.OpenPath: of the flags only O_CREAT; O_TRUNC is the truncate call before it, O_EXCL and O_DIRECTORY are further reasons to fail, O_TMPFILE makes a temporary file.
- CallProofs.RmdirKeeps: the refusal for a directory that is open, because descriptors of directories and their link counts are not in the state.
- FileSystems.FileSystem.DeleteDirectory: the same refusal, for the same reason.
- MountLoops.InitializeFileBlocks: a slot for a part of a file beyond its first keeps its blocks out of the pool but is not entered in the file, because the source never writes such a slot.
- MountProofs.MountAcceptsIff: a temporary file's slot that names a slot beyond the table, where the source writes past it.
- lseek and the append position, file locks: no part in the properties above. Block locks only as far as `Faults.LocksSuffice` says.
- What the rest of a table reads as after a format that failed half-way, and the byte layout of slots: a device is modelled by its regions, and `Formatting.WriteTables` by plain bytes.
- Empty paths: the source reads the character before the first.
- Offsets so large that offset plus size wraps around 64 bits.
- File slots and directory slots that unlink and rmdir do not put back on the free lists until the next mount: the free lists are proved unused, not complete.
- What is done to a state after a rename that lost the tree or an index, or after an open that replaced an entry: one such call is described completely, and runs end there.
- Section right-hand comments in a saved text: they are modelled as the source writes them and excluded by the exact condition.
- Comment delimiters of more than one character: every caller in the repository uses "#". Setters and typed getters of the INI parser: they change or convert one value of the document and take no part in reading or writing it.
- TokenBucketRuns.RunsAreLinear: requests of zero or fewer tokens and concurrent consumeOrDrain or borrowing are not in the machine, because a request of zero is answered without looking at the bucket at that moment and the others test and take in two steps.
- Rounding of floating point in the token bucket and the casts from floating point.
