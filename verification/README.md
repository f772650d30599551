# A verified model of VeriFS2 (RefFS)

VeriFS2 is an in-memory FUSE file system that a model checker uses as its
reference: it must be able to save its whole state under a key, come back to it
later, and write it to a file and load it again. This project models the parts
that make this work and proves them for every input, every run and every
reachable state:

* the namespace and inode table as a state machine (create, mkdir, mknod, symlink,
  link, unlink, rmdir, rename, lookup, forget, setattr, read, write, truncate);
* checkpoint and restore through a keyed pool of deep copies;
* pickle and load, from the single inode up to the hashed state file;
* the block-granular file buffer with its unspecified tail;
* block, inode and directory-size accounting;
* directory listings through cookies, and the parsing of size options.

`dafny verify dfyconfig.toml` verifies everything.

## How it is built

`Model.dfy` gives the file system as a value (`Fs`: table, free queue, statvfs;
`State`: live file system and pool) with one total function per request, following
the branches of the C++ code, its 64-bit wrap-around and its error replies. The
invariants and theorems are about these functions. `Meanings.dfy`, `Creations.dfy`
and `FileContents.dfy` say what each request answers and does in other words than its
function: every error code with its cause, in terms of names as maps, links, classes
and modes, then which bindings, counts and inodes change and that nothing else does.
`Objects.dfy`, `Server.dfy`,
`Pickler.dfy`, `PickleServer.dfy` and `ReadDir.dfy` hold the imperative side:
classes with the source's fields, buffers as arrays, loops over them; each method is
proved to do exactly what the function says (`RamFs.Valid` ties every object to its
slot and every buffer to one inode, so that live inodes and snapshots share no
storage). Requests are atomic steps, because the server runs libfuse's
single-threaded loop.

`hide` statements only keep definitions away from the solver. Lemmas carry
`{:induction false}` (the two-state ones of the server class, which are not inductive,
excepted): each induction is written out.

What is asked of requests is graded:

* nothing but that `setattr` keeps the type bits (`Laws.KeepsType`): sizes, blocks,
  unique names, class and mode of every inode, time travel, and the errors of
  checkpoint and restore; with number 0 never reclaimed, also what `rename` means as a
  map update, in loaded states too;
* nothing but that no `forget` reclaims the placeholder 0 or the root
  (`Slots.Spares`): slots, free queue, inode numbers, block and inode counters;
* `Names.Sober`: names are not "." or "..", `link` and `unlink` do not name
  directories, `rename` does not have one inode as source and target, `forget` does
  not name inode 0, a 64-bit link count has room for one more. Then no name dangles,
  no directory has two names, link counts cover the names, the root keeps its links
  (so that no forget reclaims it), and the server refines the model. Parents need not
  be named, renames need not fit, forgets may exceed the restored count;
* further, that `rename` does not move a directory into its own subtree
  (`Trees.NoLoop`): then no directory is its own ancestor;
* `Invariant.Legal`: further, parents are the root or still named, and the new name of
  a `rename` fits (`RenameFits`). Then link counts are exact and every named directory
  climbs to the root. `RenameOkIff` shows that `RenameFits` is exact for this
  invariant, `RenameMeaning` that it is exact for the map update.

## Where the code departs from its intent

The model follows the code. Where a property one would expect is false, the exact
condition is proved:

* `rename` ignores a failed `_AddChild`: it answers success and the source loses its
  name. It keeps the invariant if and only if `RenameFits`
  (`RenameProofs.RenameOkIff`), and it is one map update if and only if `RenameFits`
  or the new name leads to the source already (`DirectoryMap.RenameMeaning`; a concrete
  run is `Departures.RenameLosesFile`).
* `rename` over an empty directory decrements its link count three times, to
  2^64 - 1 (`RenameProofs.ReplacedDirectory`; a concrete run is
  `Departures.ReplaceWraps`). The slot is never reclaimed again without a restore
  (`Orphans.ReplacedNeverReclaimed`). The link-count law is
  therefore about inodes that are still named.
* `symlink` answers ENOSPC when there is no room for its name, does not return, and
  makes the link all the same; its lookup is counted although the kernel never got
  the entry (`Departures.SymlinkMisreported`). A create that answers an error leaves
  nothing behind if and only if it is not such a request
  (`Accounting.FailedCreateInvisible`); m_nlookup stays what the kernel holds if and
  only if no such request occurs (`InodeNumbers.InStepIff`,
  `InodeNumbers.ServeAllOk`); the inode is then never reclaimed without a restore
  (`InodeNumbers.LostStays`).
* `load` drops null slots that the free queue still lists. Pickle and load is the
  identity if and only if all free queues are empty; otherwise the loaded table
  breaks the slot law (`StateCodec.RoundTripIff`; such a state is reached in
  `Departures.NullSlotReachable`).
* A directory's first block is charged twice and a failed create charges its blocks
  again instead of refunding them. The drift of the block counters is exactly that
  (`Accounting.BlockLaw`, `Accounting.RunDrift`). Registration does not ask for
  space, so f_bfree can wrap (`Departures.MkdirOverdraws`); it does exactly when the
  charge is not covered (`Overdraft.CreateWrapsIff`), and the law holds over the
  integers exactly otherwise (`Overdraft.ExactIff`, `Overdraft.RunExactIff`).
* `readdir` steps its iterator back one entry too many on a full buffer. A listing
  gets to its end if and only if every undeleted entry, and every two adjacent ones,
  fit the buffer of at most 384 bytes (`ReadDir.DirectoryListsIff`); two names of 200
  bytes are enough to make it endless (`Departures.ListingNeverEnds`).
* `truncate` answers a lack of space with the error code negated, exactly when the
  blocks to be added are not free (`FileContents.TruncateRefusesIff`).
* The ".." entry of a moved directory is not updated, so nothing is stated about
  where it leads.
* The copy loops answer EBADF for a class that does not fit the mode; this is shown to
  be unreachable (`Snapshots.PoolErrors`).

## Model

| member | source | states |
|---|---|---|
| `Snapshots.TimeTravel` | src/fuse_cpp_ramfs.cpp:133-349 | From any state whose tables have two slots and inodes with agreeing class and mode: after checkpoint(k) and any sequence of requests whatever except restore(k), restore(k) succeeds, brings back the whole file system of the checkpoint moment and uses up the key |
| `Snapshots.TimeTravelFromInit` | src/fuse_cpp_ramfs.cpp:133-349 | In particular after any run from FuseInit, legal or not, that keeps type bits |
| `Snapshots.RunStorable` | src/fuse_cpp_ramfs.cpp:451-1525 | Every such run keeps those two conditions in the live table and all snapshots |
| `Snapshots.SnapshotUntouched` | src/cr_util.cpp:38-78 | No run without restore(k) changes or removes the snapshot under k |
| `Snapshots.PoolErrors` | src/fuse_cpp_ramfs.cpp:147-199 | Under those conditions checkpoint fails exactly with EEXIST for a key in use and restore exactly with ENOENT for a key not in use |
| `Snapshots.StorableIsCopyable` | src/fuse_cpp_ramfs.cpp:258-327 | No dynamic_cast of a copy loop fails |
| `Runs.LinkCounts` | src/fuse_cpp_ramfs.cpp:844-1064 | In every live or pooled table: a non-directory has as many links as names, every named directory two plus one per subdirectory, and no name but a dot leads to a null slot or an inode without links |
| `Trees.Acyclic` | src/fuse_cpp_ramfs.cpp:1136-1273 | On every sober run from FuseInit whose renames move no directory into its own subtree, unfitting renames and unnamed parents included, in the live table and all snapshots: a directory has at most one name, its chain of naming parents ends, and it never meets itself on it |
| `Trees.RunTopped` | src/fuse_cpp_ramfs.cpp:451-1525 | The invariant behind it over all such runs |
| `Trees.RenameTopped` | src/fuse_cpp_ramfs.cpp:1136-1273 | For rename in all its branches |
| `Trees.NoCycle` | src/fuse_cpp_ramfs.cpp:1136-1273 | Chains that end and single names leave no cycle |
| `Runs.Tree` | src/fuse_cpp_ramfs.cpp:995-1273 | On legal runs moreover: every named directory climbs to the root |
| `Slots.StepSlots` | src/fuse_cpp_ramfs.hpp:69-94 | Every request, legal or not, that does not reclaim 0 or the root keeps the slot law: the free queue lists exactly the null slots, once each, 0 and 1 are in use, f_ffree is f_files less the slots in use |
| `Slots.RunSlots` | src/fuse_cpp_ramfs.cpp:133-349 | So does every run, restores included, in the live table and all snapshots |
| `Slots.StepNumbered` | src/fuse_cpp_ramfs.cpp:1510-1525 | Every such request keeps inode i in slot i, and no name ever leads to number 0 |
| `Slots.Conservation` | src/util.hpp:31 | What that means: no number 0 or 1 is free, and a lookup yields 0 exactly for a name that is absent |
| `Slots.SlotsConserved` | src/fuse_cpp_ramfs.cpp:397-424 | All of it on every run from FuseInit, in the live table and all snapshots |
| `Names.RunSafe` | src/fuse_cpp_ramfs.cpp:451-1525 | Every sober run, with unfitting renames, unnamed parents and forgets beyond a restored count, keeps names from dangling, directories from having two names, and link counts at least as high as the names account for |
| `Names.NamesLast` | src/fuse_cpp_ramfs.cpp:397-428 | The same from FuseInit on, in the live table and all snapshots |
| `Names.RenameNames` | src/fuse_cpp_ramfs.cpp:1136-1273 | For rename in all its branches, the unfitting one included |
| `Names.LegalRunIsSober` | src/fuse_cpp_ramfs.cpp:451-1525 | Legal runs are sober, so all of this holds of them too |
| `Names.SoberIsBenign` | src/fuse_cpp_ramfs.cpp:1066-1094 | The root keeps its links, so no forget of a sober run reclaims it |
| `Names.NameLeads` | src/directory.cpp:229-242 | Then a name that is no dot leads to an inode with links |
| `Runs.RunOk` | src/main.cpp:85 | Every legal run keeps the whole invariant for the live table and all snapshots |
| `Runs.StepOk` | src/fuse_cpp_ramfs.cpp:451-1525 | Every legal request keeps it |
| `Runs.InitOk` | src/fuse_cpp_ramfs.cpp:397-428 | FuseInit establishes it |
| `Runs.InitShape` | src/fuse_cpp_ramfs.cpp:397-428 | The exact initial table and counters: placeholder 0, root 1 with its two entries, two blocks charged for one |
| `RenameProofs.RenameOkIff` | src/fuse_cpp_ramfs.cpp:1136-1273 | A legal rename, whatever its branch, keeps link counts, tree, slots and size laws if and only if an unoccupied new name fits the new parent |
| `RenameProofs.RenameOk` | src/fuse_cpp_ramfs.cpp:1136-1273 | The positive half, for runs |
| `RenameProofs.LostShape` | src/fuse_cpp_ramfs.cpp:1260-1272 | What a rename whose name does not fit does to every name count and link count |
| `RenameProofs.ReplacedDirectory` | src/fuse_cpp_ramfs.cpp:1234-1258 | A directory replaced by rename has no name left and exactly 2^64 - 1 links |
| `Orphans.ReplacedNeverReclaimed` | src/fuse_cpp_ramfs.cpp:1234-1258 | After that no sober run without restore reclaims the slot, names the directory again or changes its count |
| `Namespace.CreateOk` | src/fuse_cpp_ramfs.cpp:789-951 | create, mknod, mkdir and symlink keep the invariant, also when the name cannot be added |
| `Namespace.UnlinkOk` | src/fuse_cpp_ramfs.cpp:953-993 | unlink keeps the invariant |
| `Namespace.RmdirOk` | src/fuse_cpp_ramfs.cpp:995-1064 | rmdir keeps the invariant |
| `Namespace.LinkOk` | src/fuse_cpp_ramfs.cpp:1275-1319 | link keeps the invariant |
| `Namespace.ForgetOk` | src/fuse_cpp_ramfs.cpp:1066-1094 | forget keeps the invariant, and an inode whose slot it reclaims had no name |
| `Namespace.EmptyHasNoEntries` | src/directory.cpp:229-242 | IsEmpty, which looks at link counts, means that there is no entry but dots |
| `Namespace.NoDangling` | src/directory.cpp:229-242 | A name that is no dot always leads to an inode with links |
| `Laws.FsStepLawful` | src/directory.cpp:35-161 | Every request keeps sizes, blocks, unique names and class and mode of every inode in every table that has them, whatever its slots, queue, links and tree |
| `Laws.RunLawful` | src/fuse_cpp_ramfs.cpp:133-349 | So does every run with checkpoints and restores, in the live table and all snapshots |
| `Laws.Attributes` | src/directory.cpp:35-58 | What the laws say of an inode: st_blocks is st_size in 512-byte blocks rounded up, st_size is the text length or the base size plus the cost of each entry, class and type bits agree, names are unique |
| `Laws.NoNegativeSize` | src/directory.cpp:35-52 | In every such table the negative-size assertion of UpdateSize cannot fire when a name is removed |
| `StateCodec.LawfulForever` | src/pickle.cpp:393-532 | The same after every sequence of requests, restores and loads, also of states with null slots |
| `StateCodec.NoRemovalUnderflows` | src/directory.cpp:144-161 | From FuseInit on, after any such sequence, all inodes obey the laws and no removal underflows |
| `Invariant.DotsShape` | src/fuse_cpp_ramfs.cpp:885-894 | Adding "." and ".." to a new directory never fails for space and gives the exact result |
| `Invariant.AddChildOk` | src/directory.cpp:81-96 | Adding a name keeps size, block and uniqueness laws and changes one directory by one entry |
| `Invariant.UpdateChildOk` | src/directory.cpp:111-129 | The same for rebinding a name |
| `Invariant.RemoveChildOk` | src/directory.cpp:144-161 | The same for removing a name |
| `DirectoryMap.LookupIsMap` | src/directory.cpp:60-67 | Lookup in the entry vector is lookup in the map it stands for |
| `DirectoryMap.AddChildBinds` | src/directory.cpp:81-96 | _AddChild adds one binding if and only if the name is unbound and the directory may grow, answers EEXIST exactly for a bound name, and otherwise changes no binding |
| `DirectoryMap.UpdateIsMap` | src/directory.cpp:111-129 | Overwriting an entry is rebinding |
| `DirectoryMap.RemoveIsMap` | src/directory.cpp:144-161 | Erasing an entry is removing a binding |
| `DirectoryMap.RenameMeaning` | src/fuse_cpp_ramfs.cpp:1136-1273 | In every table whose inodes obey their laws and whose number 0 is unused, whatever its slots, links and tree: a successful rename rebinds the new name to the source, drops the old one and changes no other binding of any directory, if and only if RenameFits or the new name leads to the source already; an error reply leaves the whole state as it was |
| `Meanings.LookupMeans` | src/fuse_cpp_ramfs.cpp:451-479 | In every table whose inodes obey their laws and whose number 0 is unused: lookup answers the inode the name is bound to if and only if the parent has links and is a directory and that inode has links; then one lookup of that inode is counted and nothing else changes. ENOTDIR is answered exactly for a parent with links that is no directory, ENOENT otherwise; an error changes nothing |
| `Meanings.UnlinkMeans` | src/fuse_cpp_ramfs.cpp:953-993 | unlink succeeds if and only if the parent has links and is a directory and the name leads to a number; then the directory loses exactly that binding, the inode it led to has one link fewer modulo 2^64, and no other binding, link count, attribute or slot changes. Each error has its cause and changes nothing |
| `Meanings.RmdirMeans` | src/fuse_cpp_ramfs.cpp:995-1064 | rmdir succeeds if and only if the parent has links and is a directory and the name is bound to another directory with links whose names, dots apart, all lead to inodes without links; then the parent loses exactly that binding and one link, the directory is left with no links when it had between 1 and 2^31 - 1 (in general the low 32 bits are cleared when positive), and nothing else changes. Each error has its cause and changes nothing |
| `Meanings.RenameAnswers` | src/fuse_cpp_ramfs.cpp:1136-1233 | Exactly what rename answers, over bindings, links and classes, in the order of the tests: ENOENT for a parent without links, ENOTDIR for one that is no directory, ENOENT for an old name that is unbound or leads to no links, and for an existing destination ENOTDIR, ENOTEMPTY and EISDIR by class and contents; success in all other cases |
| `Meanings.RenameMeans` | src/fuse_cpp_ramfs.cpp:1234-1272 | What a successful rename does: the map update when the destination exists or the name fits, the loss of the old name otherwise; the exact link count of every inode, three fewer for a replaced directory; nothing else but sizes and blocks of the two parents and the block counters. An error changes nothing |
| `Meanings.LinkMeans` | src/fuse_cpp_ramfs.cpp:1275-1319 | link answers the inode if and only if it has links, the new parent has links and is a directory, and the name is unbound and fits; then the directory gains exactly that binding, the inode one link and one lookup, and nothing else changes. Each error has its cause and changes nothing |
| `Meanings.ForgetMeans` | src/fuse_cpp_ramfs.cpp:1066-1094 | forget takes n lookups from one inode; exactly when lookups and links are then both 0 the slot becomes null, its number joins the queue, and its blocks and inode are given back |
| `Meanings.SetAttrMeans` | src/fuse_cpp_ramfs.cpp:511-542 | An inode with links gets the mode and attributes, everything else stays; any other number is answered ENOENT |
| `Creations.CreateAnswers` | src/fuse_cpp_ramfs.cpp:789-951 | Exactly what mknod, mkdir, symlink and create answer: each error code with its cause in the order of the tests, else the number the free queue or the end of the table gives |
| `Creations.EntryIffThrough` | src/fuse_cpp_ramfs.cpp:1321-1365 | An entry is answered exactly when parent, name, type and space allow it, but for a symlink whose name found no room, which is made nevertheless |
| `Creations.CreateMakes` | src/fuse_cpp_ramfs.cpp:844-909 | What is made then, written out: an inode under a number that was not in use, with the requested mode, attributes, one lookup and 1 or 2 links, and as body the empty file, the directory of exactly "." and "..", the link with the given text and its length as size, or the special of that type; the parent gains exactly that binding and for a directory one link; all other inodes and bindings stay, and one inode is taken from the counters |
| `Creations.RequestedIs` | src/fuse_cpp_ramfs.cpp:911-951 | The mode handed on is the requested one with the type bit of mkdir or create set and every other bit as it was |
| `StateCodec.RenameMeansForever` | src/fuse_cpp_ramfs.cpp:1136-1273 | So it is after every sequence of requests, restores and loads from FuseInit on that does not reclaim number 0 |
| `StateCodec.ZeroForever` | src/pickle.cpp:393-532 | Such sequences keep number 0 unused in the live table and all snapshots |
| `Slots.StepHoldsZero` | src/util.hpp:31 | Every request keeps number 0 unused in any table, loaded ones included |
| `Departures.RenameLosesFile` | src/fuse_cpp_ramfs.cpp:1260-1272 | A concrete legal rename that answers success and leaves a file without any name |
| `Departures.NullSlotReachable` | src/fuse_cpp_ramfs.cpp:1066-1094 | A concrete run that leaves a null slot and its number in the queue |
| `Departures.MkdirOverdraws` | src/fuse_cpp_ramfs.cpp:1510-1525 | A concrete mkdir that succeeds on a full file system and wraps f_bfree |
| `Departures.SymlinkMisreported` | src/fuse_cpp_ramfs.cpp:1337-1365 | A concrete symlink that answers ENOSPC, is there all the same, and has a lookup counted |
| `Departures.ListingNeverEnds` | src/fuse_cpp_ramfs.cpp:689-705 | A concrete directory of two files whose listing never gets to its end |
| `Departures.ReplaceWraps` | src/fuse_cpp_ramfs.cpp:1234-1258 | A concrete rename of one directory over another that leaves 2^64 - 1 links |
| `Accounting.BlockLaw` | src/fuse_cpp_ramfs.hpp:147-151 | For every request, covered or not, f_blocks - f_bfree less the sum of st_blocks changes modulo 2^64 by one per registered directory plus twice the node's blocks per undone create, and by nothing else |
| `Overdraft.ExactIff` | src/fuse_cpp_ramfs.hpp:147-191 | The same over the integers, if and only if a create's unasked charge is within f_bfree; all other requests are always covered |
| `Overdraft.CreateWrapsIff` | src/fuse_cpp_ramfs.cpp:1510-1525 | A create lowers f_bfree by exactly what it charges if and only if the node's charge, and for an undone create its blocks once more, are within f_bfree |
| `Overdraft.OthersCovered` | src/file.cpp:35-124 | No request but a create takes more blocks than are free |
| `Overdraft.RunExact` | src/fuse_cpp_ramfs.cpp:451-1525 | The integer law over every run without restore, legal or not, whose creates are covered |
| `Overdraft.RunExactIff` | src/fuse_cpp_ramfs.cpp:451-1525 | At the end of any run without restore the integer law holds if and only if blocks owned and excess are together within f_blocks |
| `Overdraft.MountedExcess` | src/util.cpp:163-167 | Every mount main accepts starts with an excess of exactly one block |
| `Overdraft.RunDrift` | src/fuse_cpp_ramfs.cpp:1510-1525 | The law modulo 2^64 summed over any run without restore that spares 0 and the root |
| `Accounting.InitDrift` | src/fuse_cpp_ramfs.cpp:397-428 | The drift of the initial state is 1 |
| `StatPairs.StepEven` | src/fuse_cpp_ramfs.hpp:147-156 | Every request moves f_bavail as f_bfree and f_favail as f_ffree |
| `StatPairs.EvenFromInit` | src/fuse_cpp_ramfs.hpp:147-156 | So the pairs are equal after any requests, checkpoints, restores and loads from FuseInit on, in the live file system and all snapshots |
| `Accounting.AddChildCovered` | src/fuse_cpp_ramfs.hpp:171-191 | The space check computes the later charge: adding a name never takes more than f_bfree |
| `Accounting.DataCovered` | src/file.cpp:35-124 | The same for write and truncate |
| `Accounting.CreateOutcome` | src/fuse_cpp_ramfs.cpp:844-909 | The outcomes of a create request, their exact states, and what is answered |
| `Accounting.FailedCreateInvisible` | src/fuse_cpp_ramfs.cpp:876-909 | A create that answers an error leaves every inode, name and f_ffree as before and the slot law intact, only queue, one null slot and block counters may differ; this holds if and only if it is not a symlink that goes through without room for its name |
| `InodeNumbers.StepTracks` | src/inode.cpp:39-49 | For every request, a lookup count grows by the entry replied or lost and shrinks by the lookups forgotten; a slot is reclaimed exactly at a forget that leaves both counts zero; only a create that goes through fills one |
| `InodeNumbers.ServeOk` | src/fuse_cpp_ramfs.cpp:1066-1094 | m_nlookup is what the kernel holds plus the entries lost to misreported symlinks, and numbers keep their object until the reclaiming forget, when nothing is held or lost |
| `InodeNumbers.InStepIff` | src/fuse_cpp_ramfs.cpp:1337-1365 | m_nlookup stays exactly what the kernel holds if and only if the request is not a misreported symlink |
| `InodeNumbers.ServeAllOk` | src/fuse_cpp_ramfs.cpp:451-1525 | Over every run without restore, checkpoints and unfitting renames included: the same, and m_nlookup is exactly what the kernel holds if and only if no symlink of the run was misreported |
| `InodeNumbers.LostStays` | src/fuse_cpp_ramfs.cpp:1337-1365 | An inode with a lost lookup is never reclaimed without a restore |
| `InodeNumbers.InitWorldOk` | src/fuse_cpp_ramfs.cpp:397-428 | It holds at the start, with nothing handed out |
| `InodeNumbers.NeverRebound` | src/fuse_cpp_ramfs.cpp:876-909 | While the kernel holds a number throughout a run without restore, it names the same object |
| `InodeNumbers.MountedBudget` | src/util.cpp:168-171 | For every mount main accepts, on every run that spares 0 and the root, in the live table and all snapshots, the inodes in use do not exceed f_files and f_ffree is the rest |
| `InodeNumbers.InitBudget` | src/fuse_cpp_ramfs.cpp:397-428 | FuseInit alone needs f_files other than 1 for that |
| `FileContents.WriteThenRead` | src/file.cpp:80-136 | After a write every byte of the file: the data where it was put, the old bytes elsewhere, zeros in a gap; reading gives the data back; an error or a short count changes nothing |
| `FileContents.TruncateThenRead` | src/file.cpp:35-78 | After a truncate: new length, old bytes below it, zeros from the old end on |
| `FileContents.TruncateRefusesIff` | src/file.cpp:40-42 | The negated ENOSPC is answered exactly when the blocks to be added are not free |
| `FileContents.ShrinkThenGrow` | src/file.cpp:35-78 | Shrinking and growing again leaves zeros |
| `FileContents.WriteAnswers` | src/file.cpp:80-136 | Exactly what write answers for every class: for a file ENOSPC when the blocks to be added are not free, a count of 0 when memory for them fails, else the full count |
| `FileContents.TruncateAnswers` | src/fuse_cpp_ramfs.cpp:511-542 | Exactly what truncate answers for every class, the negated ENOSPC included |
| `FileContents.ReadAnswers` | src/file.cpp:138-159 | The bytes from the offset on, as many as asked for or as there are; the error of every other class |
| `Objects.Inode.FileWrite` | src/file.cpp:80-136 | The in-place buffer write, with arbitrary bytes from realloc, stays inside 512 * st_blocks and gives the overwritten byte sequence; its result depends on the contents, not on the tail |
| `Objects.Inode.FileTruncate` | src/file.cpp:35-78 | The same for truncate |
| `Objects.Inode.FileRead` | src/file.cpp:138-159 | Reading returns the slice of the byte sequence |
| `Objects.Realloc` | src/file.cpp:88-101 | Old bytes are kept up to the smaller length; the rest is arbitrary |
| `Objects.Inode.Copy` | src/inode.hpp:56-61 | A copy has the same value and a buffer of its own |
| `Objects.Inode.AddChild` | src/directory.cpp:81-96 | _AddChild in place, with its error cases and the charge |
| `Objects.Inode.UpdateChild` | src/directory.cpp:111-129 | _UpdateChild in place |
| `Objects.Inode.RemoveChild` | src/directory.cpp:144-161 | _RemoveChild in place, with the refund |
| `Objects.Inode.FindChild` | src/directory.cpp:316-319 | Index of the first entry with the name, or the length |
| `Objects.Inode.UpdateSize` | src/directory.cpp:35-52 | st_size, st_blocks and the charge follow the entry sizes |
| `Objects.Inode.Initialize` | src/inode.cpp:282-314 | The fresh inode of each class, symlink size from its text |
| `Accounting.GuardIsExact` | src/fuse_cpp_ramfs.hpp:171-191 | The space guard passes if and only if the charge made for the growth later does not wrap f_bfree |
| `Server.RamFs.Reframe` | src/file.hpp:36-44 | Isolation: writing the inode of one slot leaves all other slots and every snapshot as they were |
| `Server.RamFs.SessionLoop` | src/main.cpp:85 | Serving any sober request sequence gives exactly the replies and final state of the model |
| `Server.RamFs.Handle` | src/fuse_cpp_ramfs.cpp:451-1525 | One request is one step of the model |
| `Server.RamFs.RegisterInode` | src/fuse_cpp_ramfs.cpp:1510-1525 | Slot reuse or growth, counters and initialisation as in the model, and nothing shared |
| `Server.RamFs.TakeSlot` | src/fuse_cpp_ramfs.hpp:78-94 | The head of the free queue or a new slot receives the object |
| `Server.RamFs.DeleteInode` | src/fuse_cpp_ramfs.hpp:70-76 | Null slot and queue entry |
| `Server.RamFs.FuseInit` | src/fuse_cpp_ramfs.cpp:397-428 | Builds the initial state, which satisfies the invariant |
| `Server.RamFs.FuseLookup` | src/fuse_cpp_ramfs.cpp:451-479 | Refines Lookup, whose answer and effect LookupMeans states |
| `Server.RamFs.FuseMknod` | src/fuse_cpp_ramfs.cpp:789-831 | Refines Mknod, whose answer and effect CreateAnswers and CreateMakes state |
| `Server.RamFs.FuseMkdir` | src/fuse_cpp_ramfs.cpp:911-951 | Refines Mknod with the directory bit, likewise |
| `Server.RamFs.FuseSymlink` | src/fuse_cpp_ramfs.cpp:1321-1365 | Refines Symlink, likewise, with the two tests that answer and do not return |
| `Server.RamFs.FuseCreate` | src/fuse_cpp_ramfs.cpp:1480-1503 | Refines Create, likewise |
| `Server.RamFs.DoCreateNode` | src/fuse_cpp_ramfs.cpp:844-909 | Registration, dots, naming and rollback as in the model |
| `Server.RamFs.FuseUnlink` | src/fuse_cpp_ramfs.cpp:953-993 | Refines Unlink (UnlinkMeans); the inode the name leads to is there |
| `Server.RamFs.FuseRmdir` | src/fuse_cpp_ramfs.cpp:995-1064 | Refines Rmdir (RmdirMeans), with the loop that drains the link count |
| `Server.RamFs.DrainLinks` | src/fuse_cpp_ramfs.cpp:1055-1060 | The draining loop takes away the low 32 bits of the count when they read as a positive int, and nothing otherwise |
| `Server.RamFs.FuseForget` | src/fuse_cpp_ramfs.cpp:1066-1094 | Refines Forget (ForgetMeans) |
| `Server.RamFs.FuseRename` | src/fuse_cpp_ramfs.cpp:1136-1273 | Refines Rename (RenameAnswers, RenameMeans), error order included |
| `Server.RamFs.FuseLink` | src/fuse_cpp_ramfs.cpp:1275-1319 | Refines Link (LinkMeans) |
| `Server.RamFs.FuseWrite` | src/fuse_cpp_ramfs.cpp:1096-1113 | Refines Write (WriteAnswers, WriteThenRead) |
| `Server.RamFs.FuseTruncate` | src/fuse_cpp_ramfs.cpp:511-542 | Refines Truncate (TruncateAnswers, TruncateThenRead), with the negated ENOSPC |
| `Server.RamFs.FuseRead` | src/fuse_cpp_ramfs.cpp:1122-1133 | Refines Read (ReadAnswers) |
| `Server.RamFs.FuseSetAttr` | src/inode.cpp:56-120 | Refines SetAttr (SetAttrMeans) |
| `Server.RamFs.DirIsEmpty` | src/directory.cpp:229-242 | The IsEmpty loop |
| `Server.RamFs.CopyTable` | src/fuse_cpp_ramfs.cpp:147-199 | The copy loop gives a table of new objects with the same values and buffers of their own, or fails for a class that does not fit its mode |
| `Server.RamFs.Checkpoint` | src/fuse_cpp_ramfs.cpp:133-212 | Refines Checkpoint |
| `Server.RamFs.Restore` | src/fuse_cpp_ramfs.cpp:246-349 | Refines Restore |
| `Server.RamFs.CopyStored` | src/fuse_cpp_ramfs.cpp:258-327 | The copying half of restore: new objects for the snapshot, or queue and counters put back |
| `Server.RamFs.InsertState` | src/cr_util.cpp:40-50 | A key in use is refused; otherwise the snapshot joins the pool and shares nothing |
| `Server.RamFs.FindState` | src/cr_util.cpp:52-61 | With two slots in every snapshot the empty answer means exactly that nothing is stored under the key; otherwise the answer is what is stored |
| `Codec.NodeRound` | src/inode.cpp:333-420 | Loading the bytes of an inode of any class, whatever follows, gives the inode and leaves the rest |
| `Codec.HeadRound` | src/inode.cpp:333-420 | The same for the common part with its extended-attribute records |
| `Codec.EntriesRound` | src/directory.cpp:260-315 | The same for directory entries |
| `Pickler.PickleIsExact` | src/inode.cpp:316-331 | Pickle writes exactly GetPickledSize bytes for all four classes |
| `Pickler.PickleNode` | src/file.cpp:161-177 | The pickling loops write the specified bytes |
| `Pickler.LoadNode` | src/file.cpp:179-193 | The loading loops read what the decoder specifies and advance by as much |
| `Pickler.PickleEntries` | src/directory.cpp:260-288 | The entry loop of Directory::Pickle |
| `Pickler.LoadEntries` | src/directory.cpp:290-315 | The entry loop of Directory::Load |
| `Pickler.LoadXAttrs` | src/inode.cpp:378-420 | The attribute loop of Inode::Load |
| `StateCodec.StateRound` | src/pickle.cpp:393-532 | Loading a pickled state, whatever follows, gives statvfs, the free queues in order, the pool key by key and every table without its null slots, and uses exactly the bytes written |
| `StateCodec.TableRound` | src/pickle.cpp:405-440 | The load loop gives the table without its null slots |
| `StateCodec.QueueRound` | src/pickle.cpp:393-532 | The free queue comes back in order |
| `StateCodec.RangeFits` | src/pickle.cpp:117-221 | In a tidy table, numbers within their C types are all the format needs |
| `StateCodec.RoundTripIff` | src/pickle.cpp:393-532 | For every tidy state, pickle and load is the identity if and only if all free queues are empty; the loaded live table keeps the slot law if and only if its queue was empty |
| `StateCodec.RestoreAfterLoad` | src/pickle.cpp:450-532 | After pickle and load, restore(k) succeeds with the squeezed snapshot; it equals the direct restore if and only if that snapshot's queue was empty |
| `PickleServer.PickleFileSystem` | src/pickle.cpp:117-221 | Writes the specified bytes and leaves the server, with its rotated queue, as it was |
| `PickleServer.WriteQueue` | src/pickle.cpp:151-162 | The pop-push loop writes the queue in order and ends with the same queue |
| `PickleServer.WriteTable` | src/pickle.cpp:129-150 | The slot loop writes header and bytes of every slot |
| `PickleServer.LoadFileSystem` | src/pickle.cpp:393-532 | Builds new objects that hold exactly the decoded state, sharing nothing, and reports the bytes used |
| `PickleServer.LoadTable` | src/pickle.cpp:405-440 | The load loop that skips null slots |
| `PickleServer.PickleVerifs2` | src/pickle.cpp:246-301 | The state file: length, digest, bytes |
| `PickleServer.LoadVerifs2` | src/pickle.cpp:543-591 | Loads exactly the accepted files; a refused one leaves the server alone |
| `PickleServer.PickledFileLoads` | src/pickle.cpp:543-591 | The file pickled from any tidy state is accepted and loads to that state without its null slots |
| `StateFile.VerifyStateFile` | src/pickle.cpp:356-379 | The result code says exactly whether header, length or digest is wrong |
| `StateFile.HashBody` | src/pickle.cpp:311-346 | Hashing in 4096-byte reads is hashing the whole |
| `StateFile.Sink.WriteAndHash` | src/pickle.cpp:105-114 | The running hash is the hash of all bytes written |
| `StateFile.PickledFileVerifies` | src/pickle.cpp:255-292 | Every file a successful pickle produces passes verification |
| `StateFile.TamperingShows` | src/pickle.cpp:303-346 | A body of another length or digest is refused |
| `ReadDir.FillShows` | src/fuse_cpp_ramfs.cpp:664-705 | A reply holds exactly the undeleted entries of the range it scanned, in order |
| `ReadDir.Progress` | src/fuse_cpp_ramfs.cpp:689-705 | The next reply starts further on if and only if there is room |
| `ReadDir.Stuck` | src/fuse_cpp_ramfs.cpp:696-700 | Two adjacent entries too large for one buffer repeat the same reply for ever |
| `ReadDir.DirectoryListsIff` | src/fuse_cpp_ramfs.cpp:613-710 | A listing of a directory gets to its end if and only if every record of an undeleted entry, and every two adjacent ones, fit the buffer |
| `ReadDir.CompletesIffFits` | src/fuse_cpp_ramfs.cpp:664-705 | The same for any buffer of less than 24 times 255 bytes |
| `ReadDir.CompletesIff` | src/fuse_cpp_ramfs.cpp:689-705 | For any buffer, in terms of the entries replies start from |
| `ReadDir.ListingCovers` | src/fuse_cpp_ramfs.cpp:613-710 | A listing shows every undeleted entry of the snapshot in order; the only repeats are the entries just before a cut |
| `ReadDir.ListsEveryName` | src/fuse_cpp_ramfs.cpp:669-676 | While names are in order no name is missing from a listing |
| `ReadDir.ShortNamesFit` | src/fuse_cpp_ramfs.cpp:657-658 | Names of at most 168 bytes never block a listing |
| `ReadDir.ReadDirCtx.FillBuffer` | src/fuse_cpp_ramfs.cpp:664-705 | The loop over the context's iterator, with the cookie that also counts the failed attempt |
| `ReadDir.Listings.PrepareReaddir` | src/directory.cpp:189-214 | A new context under an unused key, or the context the cookie leads to |
| `ReadDir.Listings.RecycleStates` | src/directory.cpp:216-227 | Drops exactly the contexts at their end |
| `ReadDir.Listings.FuseReadDir` | src/fuse_cpp_ramfs.cpp:613-710 | One request moves only the context that answers it |
| `ReadDir.Listings.ListDirectory` | src/fuse_cpp_ramfs.cpp:613-710 | With fewer than 65536 cookie increments and room for adjacent pairs, a whole listing ends, gives the specified replies, every cookie leads back to its context, and the context table ends as it began |
| `SizeText.SizeStr2Number` | src/util.cpp:48-89 | The right-to-left loop, with every overflow, gives (decimal value times unit) modulo 2^64, and 0 for a non-digit or an unknown unit |
| `SizeText.GatherNumber` | src/util.cpp:79-87 | The digit loop |
| `SizeText.ReadsBack` | src/util.cpp:48-89 | A printed number with an optional unit and any spaces is read as itself times the unit, modulo 2^64 |
| `SizeText.UnitIs` | src/util.cpp:59-77 | The suffixes k, m, g, t, p, e in either case are the first six powers of 1024, and there is no other suffix |

## Left out

- FUSE replies and kernel cache invalidation, ioctl dispatch, mounting and the command line: I/O around the logic. Requests are values in, replies are values out; of two replies to one request the first counts.
- Mutexes and lock order: the loop is single-threaded, so requests are atomic steps.
- Timestamps, owners, permission checks, device numbers and timeouts: kept as opaque bytes (`meta`) that creation and setattr supply and pickling preserves; a write does not touch them in the model.
- getattr, statfs, readlink, access, open, flush, fsync: they only read fields.
- xattr get, set, list and remove: attributes occur only as records in the pickle format, as values.
- Class hierarchy: the four Inode subclasses are one class with a variant field, since traits would add nothing to the proofs.
- The order of fields inside struct fuse_entry_param and struct statvfs as raw bytes: modelled fields are written one by one and the rest as fixed-length opaque bytes of the same total length.
- Inode numbers, sizes and lengths are unbounded in the state machine; the pickle theorems ask that they fit their C types. Link counts, lookup counts and the statvfs counters are 64-bit with wrap-around, NumLinks truncates to a signed 32-bit int.
- Allocation failure other than realloc in write and truncate (the `mem` argument) ends the program in the source and is not modelled.
- SHA-256 itself, files, mmap and the paths of the state file: an abstract digest whose result depends on the concatenated input.
- A read or write with a negative offset, and a file size beyond ssize_t.
- The random choice of a readdir key: the parameter `key` is the first one not in use.
- The step back of a readdir iterator before its beginning (first entry larger than the buffer) is undefined in the source; the model stops at position -1.
- A registration whose free-queue head lies beyond a loaded table writes outside the vector in the source; the model appends, and only the laws of single inodes are stated about it.
- Objects.Inode.Copy: the xattr value pointers the copy shares with its source are values in the model, so changing a shared value in place is not captured.
- Server.RamFs.FuseSetAttr: the to_set mask is not modelled bit by bit; the request carries the resulting mode and opaque attributes.
- PickleServer.LoadFileSystem: asks that the bytes decode; for others the source reads past the mapped file or stops half way.
- PickleServer.LoadVerifs2: asks that a file with the right length and digest decodes, for the same reason.
- SizeText.SizeStr2Number: asks for a character other than a space, because the source reads before the string otherwise.
- ReadDir.Listings.ListDirectory: states the listing for a directory that does not change meanwhile; a changing one is not modelled.
- Accounting.BlockLaw: stated modulo 2^64, the width of the counters, so that it covers requests that overdraw them; Overdraft.ExactIff is the law over the integers with its exact condition.
- RenameProofs.RenameOk: asks that the new name fits; RenameProofs.RenameOkIff shows that the invariant is lost exactly otherwise.
