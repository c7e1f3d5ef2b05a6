# Forkable microVM engine: verified model

minidox forks running virtual machines. A fork shares everything and copies
nothing: memory, cached file pages and disk blocks are immutable generations
under private changes, and a page or block gets its own copy when a branch
first writes it. This project models that engine and proves that it behaves as
if every fork had copied everything.

There are four layers. Each has a state machine (or plain data) with the
properties of whole runs, and classes or methods with loops, proved equal to
the steps of that machine.

* Page cache (`PageCache`, `CacheInvariant`, `CacheSteps`, `CacheRuns`,
  `CacheOutcomes`, `SharedCache`, `CacheFiles`, `CacheAccounting`, `CacheCheckpoint`, `Identities`,
  `Generations`):
  one cache shared by all branches of a filesystem, with copy on write when a
  page is mapped for writing and write-back to each branch's store.
* Guest RAM (`GuestRam`, `RamInvariant`, `RamForks`, `RamRuns`,
  `RamCheckpoint`, `RamSealing`, `RamObject`, `RamRestore`, `RamManifest`): page references over generation
  files; a fork copies dirty pages while the guest runs, pauses it, copies
  again what changed, and seals. Guest writes and page copies interleave freely.
* Durable disks (`DiskLog`, `DiskInvariant`, `DiskSteps`, `DiskRecovery`,
  `DiskRuns`, `DiskIds`, `DiskSharing`, `DiskAccounting`, `LayerCodec`,
  `DiskObject`, `DiskRestore`, `DiskReload`):
  copy-on-write disks mirrored by append-only files. A crash may happen at any
  step and may leave every file no checkpoint names in any state.
* Forest and orchestration (`PageBranches`, `ForestRuns`, `ForestAccounting`,
  `ForestObject`, `ForestCounts`, `ForestPages`, `DaxCache`, `DaxWindow`,
  `DaxResume`, `DaxFork`, `DaxSetup`, `DaxRuns`,
  `DaxSnapshot`, `DaxObject`, `ForkBarrier`, `CheckpointBarrier`): the in-memory fork forest,
  the DAX window of virtio-fs (section 5.11 of Virtio 1.2), and the barriers
  around forks and checkpoints.
  `Basics` and `Accounting` are shared.

Three promises turn out not to hold as stated; each is proved with its exact
condition.

* Forking under a DAX window does not always map its pages again. It does
  exactly when the window has no pages, or is attached, the mapped files are
  open and no file page has its first writable mapping at a higher window offset
  than a read-only one (`DaxFork.ForkResumesWhen`). After two accepted requests
  of `DaxFork.ForkCanLoseThePages` a fork fails with the page busy and leaves
  the window empty. Without a fork, a suspended window whose pages were all
  mapped resumes exactly when it is attached and the mapped files are still open
  (`DaxFork.SuspendThenResume`): closing a file does not wait for its mappings.
  On a detached window with pages both fail with `ENODEV`, after the cache
  branch has been forked.
* A multi-page file write is not atomic: it stops at the first page the branch
  itself has mapped while not exclusive, with exactly the pages before it
  written (`CacheFiles.Write`; `CacheFiles.WriteCanStopHalfWay` has a case).
* A block id does not always mean one block. A process that reopens a checkpoint
  of an earlier process, writes, and then reopens a later checkpoint of that
  process beside it gives a new block an id the later checkpoint uses already
  (`DiskSharing.IdsCanCollide`). Bytes are not affected, but shared blocks are
  miscounted (`DiskAccounting.SharingIsMiscounted`), and checkpoints of the two
  disks do not load together (`DiskReload.OwnCheckpointsCanConflict`). Ids mean
  one block throughout a run exactly when no reopened checkpoint contradicts the
  records of the disks open at that moment (`DiskIds.RunAgreesWhen`), which is
  when it would also load with their blocks known
  (`DiskReload.ConflictIsALoadError`). A caller who knows only which process took
  a checkpoint has a sufficient rule: it took it itself, or has written nothing
  since it opened checkpoints of that process, or holds nothing yet
  (`DiskIds.SafeRunAgrees`). That rule is not necessary, since ids may happen not
  to meet (`DiskSharing.RuleIsNotNecessary`).

Hypotheses. Reading and writing cached pages, generation files and layer files
succeeds. A RAM fork that has taken the dirty log runs to its end. A guest
stores only through mappings it asked to write, although the host maps every
window page writable. Open files are not part of the fork point: a child starts
with none open. A crash spares the files a returned checkpoint names, which the
code syncs before returning.

Conventions. A critical section of a lock is one step. Arithmetic on `nat` is
unbounded except where the code checks it (`checked_add`, `saturating_add`),
which is written out. Calls into the operating system, the hypervisor and
RedoxFS appear as parameters that say how they went, or as assumptions listed
at the end.

## Model

| member | source | states |
|---|---|---|
| Generations.LookupInIsVisible | crates/minidox-redoxfs/src/branching.rs:34-62 | looking a key up newest generation first gives what flattening oldest first gives |
| Generations.LookupIsVisible | crates/minidox-redoxfs/src/branching.rs:471-484 | the same with private changes on top |
| Generations.Seal | crates/minidox-fork/src/lib.rs:74-86 | sealing private changes into a generation changes nothing visible and leaves none private |
| Generations.InsertMissing | crates/minidox-fork/src/lib.rs:153-157 | one generation inserted under what is already seen |
| Generations.FlattenNewestFirst | crates/minidox-fork/src/lib.rs:149-161 | the newest-first loop that skips seen keys computes the same map as the oldest-first overwrite |
| Generations.VisibleIsRetained | crates/minidox-fork/src/lib.rs:163-171 | every visible value is one some generation keeps alive |
| Identities.IdentityIsName | crates/minidox-redoxfs/src/branching.rs:100-115 | the identity a chain of generations gives a page is the name the flat maps give it |
| Identities.MeetsStoreContract | crates/minidox-cache/src/branching.rs:14-21 | the identity branch meets its half of the store contract: a fork renames nothing and leaves no private names, and a new file and a prepared write change the flat names in one place each |
| Identities.SealKeepsNames | crates/minidox-redoxfs/src/branching.rs:80-93 | forking an identity branch renames nothing on either side |
| Identities.PreparedNameIsNew | crates/minidox-redoxfs/src/branching.rs:135-142 | preparing a write gives the page a name no branch has anywhere and leaves the other names of the branch alone |
| Identities.NewFileNames | crates/minidox-redoxfs/src/branching.rs:100-115 | the pages of a new file are named by its object, their number and version zero |
| Identities.RecordWrite | crates/minidox-redoxfs/src/branching.rs:117-133 | a write renames exactly the pages it reaches, each with its own new version, and fails exactly when its end overflows |
| Identities.DurableState | crates/minidox-redoxfs/src/branching.rs:724-748 | the saved lists hold exactly the visible files and page versions |
| Identities.RestoreLineage | crates/minidox-redoxfs/src/branching.rs:750-797 | restored branches name pages as the saved ones did, and the counters are the first past every restored name |
| Identities.SharingSurvivesRestore | crates/minidox-redoxfs/src/branching.rs:750-797 | two restored branches share a page name exactly when the saved ones did |
| CacheInvariant.LoadKeepsInv | crates/minidox-cache/src/branching.rs:621-637 | loading a page keeps the cache invariant and changes no byte any branch reads |
| CacheInvariant.CowKeepsInv | crates/minidox-cache/src/branching.rs:401-424 | copy on write keeps the invariant, changes no byte any branch reads, and makes the page exclusive |
| CacheInvariant.UnmapSucceeds | crates/minidox-cache/src/branching.rs:440-458 | a mapping still out can be returned by its own branch and by no other |
| CacheInvariant.UnmapKeepsInv | crates/minidox-cache/src/branching.rs:440-458 | returning a mapping keeps the invariant, takes exactly that mapping out, and marks its page dirty exactly if it was writable |
| CacheInvariant.OpenKeepsInv | crates/minidox-cache/src/branching.rs:332-343 | opening keeps the invariant and every byte, also when the store refuses |
| CacheInvariant.CloseKeepsInv | crates/minidox-cache/src/branching.rs:345-359 | closing keeps the invariant and every byte, also with mappings out |
| CacheInvariant.ForkKeepsInv | crates/minidox-cache/src/branching.rs:278-307 | a fork keeps the invariant; the child reads what the source reads |
| CacheSteps.MapPageKeepsInv | crates/minidox-cache/src/branching.rs:361-438 | mapping keeps the invariant and every byte; a request that fails changes nothing at all |
| CacheSteps.WritablePageIsPrivate | crates/minidox-cache/src/branching.rs:395-424 | no other branch and no other key sees the page of a writable mapping |
| CacheSteps.StoreKeepsInv | crates/minidox-cache/src/branching.rs:53-86 | a store through a mapping changes the bytes of one page of one branch only |
| CacheSteps.RemoveKeepsInv | crates/minidox-cache/src/branching.rs:309-330 | removing a branch keeps in the cache exactly the pages a remaining branch sees, all of which stay resident, and changes no byte others read |
| CacheSteps.CreateKeepsInv | crates/minidox-redoxfs/src/branching.rs:632-644 | a new file is zeros in its branch and invisible to the others |
| CacheSteps.SyncPageSucceeds | crates/minidox-cache/src/branching.rs:588-619 | writing back a dirty page never fails, because dirty pages are resident |
| CacheSteps.SyncPageKeepsInv | crates/minidox-cache/src/branching.rs:588-619 | a write-back keeps the invariant and every byte, and cleans that page |
| CacheRuns.StepRefines | crates/minidox-cache/src/branching.rs:196-619 | every cache operation has exactly its effect on a forest where each branch owns a copy of every file |
| CacheRuns.RunRefines | crates/minidox-cache/src/branching.rs:196-619 | every run of the cache, over any number of branches, is the same run of deep copies |
| CacheRuns.RestoredRefines | crates/minidox-cache/src/branching.rs:225-262 | a cache restored from stores starts as those stores and refines deep copies from there |
| CacheCheckpoint.SavedAreCoherent | crates/minidox-cache/src/branching.rs:225-262 | the stores of branches with nothing dirty and nothing mapped give equal pages equal bytes, so they may share one cache again |
| CacheCheckpoint.SavedViews | crates/minidox-cache/src/branching.rs:225-262 | a cache over saved stores shows each branch what it read when they were saved |
| CacheCheckpoint.SavedComeBack | crates/minidox-cache/src/branching.rs:225-262 | and refines deep copies from there on |
| CacheRuns.SyncedStoreIsView | crates/minidox-cache/src/branching.rs:528-548 | with nothing dirty or mapped for writing, the store holds what the branch reads |
| CacheRuns.SyncAllMakesStoreTheView | crates/minidox-cache/src/branching.rs:539-548 | after writing everything back the store holds what the branch reads |
| CacheRuns.WritablePagesAreExclusive | crates/minidox-cache/src/branching.rs:395-424 | in every reachable state, mappings of one page where either may write belong to one branch and one key |
| CacheRuns.AccountingIsExact | crates/minidox-cache/src/branching.rs:550-585 | all branches together account for the whole cache, and a page counts as shared exactly when two branches see one identity |
| CacheOutcomes.OpenOutcome | crates/minidox-cache/src/branching.rs:332-343 | opening counts one more, except a first open the store refuses, and no other file of any branch is affected |
| CacheOutcomes.CloseOutcome | crates/minidox-cache/src/branching.rs:345-359 | closing counts one less, also when the hook fails on the last close; a file that is not open gives one of two errors and stays as it is |
| CacheOutcomes.RunTallies | crates/minidox-cache/src/branching.rs:332-359 | after any run a branch has each file open as often as it was opened and not closed, where the count so far and the hook decide which requests count, and a forked child starts with none |
| CacheOutcomes.NothingOpenAtFirst | crates/minidox-cache/src/branching.rs:197-262 | a restored cache starts with nothing open |
| CacheOutcomes.ForkOutcome | crates/minidox-cache/src/branching.rs:278-307 | a branch forks exactly when it exists, holds no live mapping and an id is left; its exclusive pages are given up also when none is left |
| CacheOutcomes.RemoveOutcome | crates/minidox-cache/src/branching.rs:309-330 | a branch can be removed exactly when it exists and holds no live mapping; otherwise nothing changes |
| CacheOutcomes.MapOutcome | crates/minidox-cache/src/branching.rs:361-438 | every outcome of a request to map a page, with live mappings deciding whether it is busy |
| CacheOutcomes.FirstForkOf | crates/minidox-cache/src/branching.rs:225-307 | restored branches are numbered from one, and the first fork gets the next number |
| SharedCache.PagesForNode | crates/minidox-cache/src/branching.rs:141-161 | the newest-first walk lists exactly the dirty pages of a file, each once |
| SharedCache.AllPages | crates/minidox-cache/src/branching.rs:163-176 | the walk lists exactly the dirty pages, each once |
| SharedCache.DirtyMarks | crates/minidox-cache/src/branching.rs:120-139 | forking keeps the dirty set on both sides; marking adds or removes one page |
| SharedCache.VisibleAt | crates/minidox-cache/src/branching.rs:321-325 | the loop over branches finds exactly the identities visible at a key |
| SharedCache.SharedPageCache.constructor | crates/minidox-cache/src/branching.rs:197-222 | a cache over one store, or over those of a lineage, is the machine's restored state |
| SharedCache.SharedPageCache.Restore | crates/minidox-cache/src/branching.rs:225-262 | restoring refuses a lineage without branches, and otherwise is the machine's restored state |
| SharedCache.SharedPageCache.Fork | crates/minidox-cache/src/branching.rs:278-307 | the method, on chains of generations, is the machine's fork with its errors |
| SharedCache.SharedPageCache.RemoveBranch | crates/minidox-cache/src/branching.rs:309-330 | the method and its retain loop are the machine's removal |
| SharedCache.SharedPageCache.CollectVisible | crates/minidox-cache/src/branching.rs:318-326 | the nested loops collect exactly the identities still visible |
| SharedCache.SharedPageCache.Open | crates/minidox-cache/src/branching.rs:332-343 | the method is the machine's open, whose counts CacheOutcomes states |
| SharedCache.SharedPageCache.Close | crates/minidox-cache/src/branching.rs:345-359 | the method is the machine's close, whose counts CacheOutcomes states |
| SharedCache.SharedPageCache.CreateFile | crates/minidox-cache/src/branching.rs:268-276 | creating a file through the branch's store |
| SharedCache.SharedPageCache.LoadPage | crates/minidox-cache/src/branching.rs:621-637 | the page seen is resident afterwards, loaded from the store if it was not |
| SharedCache.SharedPageCache.CopyOnWrite | crates/minidox-cache/src/branching.rs:401-424 | the copy under a fresh name; the old page goes when nobody sees it |
| SharedCache.SharedPageCache.MapPage | crates/minidox-cache/src/branching.rs:361-438 | the method is the machine's mapping, with every error in its order |
| SharedCache.SharedPageCache.Grant | crates/minidox-cache/src/branching.rs:426-437 | the active count and the handle handed out |
| SharedCache.SharedPageCache.Unmap | crates/minidox-cache/src/branching.rs:440-458 | the active count, the dirty mark, and stale handles refused |
| SharedCache.SharedPageCache.SyncPage | crates/minidox-cache/src/branching.rs:600-616 | one page written back and marked clean |
| SharedCache.SharedPageCache.SyncPages | crates/minidox-cache/src/branching.rs:588-619 | pages written back in order up to the first error |
| SharedCache.SharedPageCache.Sync | crates/minidox-cache/src/branching.rs:528-537 | exactly the dirty pages of one file are written back |
| SharedCache.SharedPageCache.SyncAll | crates/minidox-cache/src/branching.rs:539-548 | exactly the dirty pages are written back, nothing a branch reads changes, and an unmapped branch's store becomes its view |
| CacheFiles.Read | crates/minidox-cache/src/branching.rs:460-493 | reading returns the branch's bytes up to the end of the file, changes nothing any branch sees, and fails exactly when the file is not open |
| CacheFiles.ReadRange | crates/minidox-cache/src/branching.rs:473-492 | the page-by-page loop returns exactly the range |
| CacheFiles.ReadPage | crates/minidox-cache/src/branching.rs:477-491 | one page mapped, read and returned |
| CacheFiles.Write | crates/minidox-cache/src/branching.rs:495-526 | writing changes exactly a prefix of the range in one branch: all of it exactly when the file is open and no page of the range is mapped unexclusively by the branch, and otherwise the bytes before the first such page |
| CacheFiles.WriteRange | crates/minidox-cache/src/branching.rs:509-525 | the page-by-page loop, which stops exactly at the first busy page |
| CacheFiles.WritePage | crates/minidox-cache/src/branching.rs:510-524 | one page mapped, stored into and returned, or refused with nothing changed |
| CacheFiles.StopsOnce | crates/minidox-cache/src/branching.rs:509-525 | there is only one place at which a write can stop |
| CacheFiles.WriteCanStopHalfWay | crates/minidox-cache/src/branching.rs:495-526 | a file of two pages with the second mapped for reading: a write of both ends with the first written and an error |
| CacheAccounting.CollectPages | crates/minidox-cache/src/branching.rs:567-576 | the loop over known keys finds exactly the cached pages a branch sees |
| CacheAccounting.PageAccounting | crates/minidox-cache/src/branching.rs:550-585 | the counts are the sizes of the union and of the pages two requested branches see, which for all branches are the cache's pages and the identities two branches see; the first unknown branch is the error |
| CacheAccounting.WholeAccount | crates/minidox-cache/src/branching.rs:550-585 | over all branches the account is that of the whole page map, with one shared page for each identity two branches see |
| Accounting.AddReferences | crates/minidox-cache/src/branching.rs:577-579 | one reference is added to each identity of a branch |
| Accounting.CountReferences | crates/minidox-cache/src/branching.rs:562-585 | counting references gives the size of the union and of the set seen twice |
| RamInvariant.WriteKeepsInv | crates/minidox-vmm/src/ram.rs:230-244 | a write keeps every VM's pages backed and every copy accounted for |
| RamInvariant.TouchedMeans | crates/minidox-vmm/src/ram.rs:230-244 | a write marks dirty exactly the pages that hold one of its bytes |
| RamForks.CopyKeepsInv | crates/minidox-vmm/src/ram.rs:691-721 | copying part of a page while the guest runs disturbs nobody |
| RamForks.FinishedSlot | crates/minidox-vmm/src/ram.rs:503-559 | after the last copy the sealed slot of every page holds what the paused guest has there |
| RamForks.FinishKeepsInv | crates/minidox-vmm/src/ram.rs:503-559 | finishing a fork keeps the invariant, in place or in a new generation |
| RamRuns.StepRefines | crates/minidox-vmm/src/ram.rs:230-559 | every RAM operation has exactly its effect on flat memories that a fork copies |
| RamRuns.RunRefines | crates/minidox-vmm/src/ram.rs:230-559 | every interleaving of writes, copies, pauses and forks of any number of VMs is the same run of flat memories |
| RamRuns.ForkPointIsThePause | crates/minidox-vmm/src/ram.rs:434-559 | whatever was written during the copying, source and child come out with the memory the source had when it was paused |
| RamRuns.ReferencesAreApart | crates/minidox-vmm/src/ram.rs:42-57 | after any run page references are in range of their generation, and two of them are the same page or lie apart |
| RamRuns.FrozenStep | crates/minidox-vmm/src/ram.rs:23-57 | no step changes a sealed generation |
| RamRuns.FrozenRun | crates/minidox-vmm/src/ram.rs:23-57 | no run changes a sealed generation |
| RamCheckpoint.CheckpointKeepsInv | crates/minidox-vmm/src/ram.rs:317-341 | a checkpoint puts every generation on disk as the VM has it and leaves older ones alone |
| RamCheckpoint.PersistKeepsInv | crates/minidox-vmm/src/ram.rs:743-768 | a checkpoint cut short after some generation files disturbs no recorded one |
| RamCheckpoint.RestartRoundTrip | crates/minidox-vmm/src/ram.rs:343-432 | the VMs of a recorded checkpoint come back with the memory of that moment |
| RamCheckpoint.DurableRunKeepsInv | crates/minidox-vmm/src/ram.rs:317-432 | the invariant of checkpoints holds over runs with crashes and restarts |
| RamCheckpoint.CheckpointsSurvive | crates/minidox-vmm/src/ram.rs:317-432 | a checkpoint taken at any time restores its memories after any later run |
| RamSealing.SealKeepsMemory | crates/minidox-vmm/src/ram.rs:497-501 | sealing a VM for a checkpoint leaves it no private page and changes no memory and no other VM |
| RamSealing.SealingIsQuiescent | crates/minidox-vmm/src/supervisor.rs:460-472 | sealing every VM makes the moment a checkpoint needs, and changes no byte |
| RamSealing.EmptyIsDurable | crates/minidox-vmm/src/ram.rs:19-20 | the invariant of checkpoints holds at start-up |
| RamSealing.CheckpointOfAnyRun | crates/minidox-vmm/src/ram.rs:279-432 | from start-up, after any run: seal, checkpoint, any later run with crashes, restart; all memories are as before the sealing |
| RamObject.PausedForkIsExact | crates/minidox-vmm/src/ram.rs:246-264 | a fork that starts under pause gives source and child the source's memory |
| RamObject.ForkKeepsInv | crates/minidox-vmm/src/ram.rs:491-559 | after a paused fork source and child each satisfy the invariant, sealed in place or in a new generation, and other files are as they were |
| RamObject.KvmGuestRam.New | crates/minidox-vmm/src/ram.rs:132-153 | fresh RAM is one zeroed generation |
| RamObject.KvmGuestRam.Write | crates/minidox-vmm/src/ram.rs:230-244 | the range check, the bytes written, and the host's dirty pages |
| RamObject.KvmGuestRam.MapRun | crates/minidox-vmm/src/ram.rs:640-672 | one run of pages of one generation, consecutive in the file, mapped at once |
| RamObject.KvmGuestRam.MapAllPages | crates/minidox-vmm/src/ram.rs:598-615 | coalescing runs maps every page to its own slot |
| RamObject.KvmGuestRam.MapSelectedPages | crates/minidox-vmm/src/ram.rs:617-638 | coalescing runs of selected pages maps exactly those |
| RamObject.KvmGuestRam.CopyPageTo | crates/minidox-vmm/src/ram.rs:691-721 | the chunked copy copies the whole page to its slot |
| RamObject.KvmGuestRam.PrepareFork | crates/minidox-vmm/src/ram.rs:436-471 | the copies made ahead, in place or in a new generation, and the bad page refused |
| RamObject.KvmGuestRam.FinishPreparedPages | crates/minidox-vmm/src/ram.rs:503-559 | the finish is the machine's finish: references, file and private pages |
| RamObject.KvmGuestRam.DirtyPages | crates/minidox-vmm/src/ram.rs:246-264 | the bitmap walk finds exactly the pages logged inside the RAM and the host's own; what a log means is stated by the three rows below |
| RamObject.OnePageLogged | crates/minidox-vmm/src/ram.rs:250-260 | a log with the bit of one page set logs exactly that page |
| RamObject.MergedLogged | crates/minidox-vmm/src/ram.rs:250-260 | the bitwise or of two logs logs the pages of both |
| RamObject.LoggedAsMerged | crates/minidox-vmm/src/ram.rs:250-260 | so a log built from any pages logs exactly those |
| RamObject.KvmGuestRam.Fork | crates/minidox-vmm/src/ram.rs:246-264 | source and child read what the source read, both satisfy the invariant again, and no generation file but the source's own changes |
| RamObject.KvmGuestRam.ForkPages | crates/minidox-vmm/src/ram.rs:491-501 | the paused fork of a given dirty set is exact, leaves both sides able to fork again, and touches no other generation file |
| RamRestore.Restore | crates/minidox-vmm/src/ram.rs:343-432 | restoring succeeds exactly on a manifest whose pages lie in their files, whose ids mean one page and whose lengths match; every error names something wrong; ids continue past all restored ones |
| RamRestore.RestorePages | crates/minidox-vmm/src/ram.rs:372-426 | the pages of one branch, interned with those before it |
| RamRestore.RestorePage | crates/minidox-vmm/src/ram.rs:373-425 | one page checked for range and for conflicting references |
| RamRestore.FindGenerations | crates/minidox-vmm/src/ram.rs:344-356 | a missing generation is found if and only if there is one |
| RamRestore.TruthfulMeansWrong | crates/minidox-vmm/src/ram.rs:362-428 | a reported error is never raised on a good manifest |
| RamRestore.DurableState | crates/minidox-vmm/src/ram.rs:317-341 | every generation the pages name is in the directory afterwards, as it was there or as the files have it, and no other is added; the returned state has these pages and passes every check of a restore if they lie in their files with one place for each id |
| RamManifest.DurableStates | crates/minidox-vmm/src/ram.rs:317-341 | saving the VMs one after the other puts exactly the generations they name into the directory |
| RamManifest.SavedIsCheckpoint | crates/minidox-vmm/src/ram.rs:743-768 | the directory is then that of the machine's checkpoint, so the round trips over crashes and restarts are about these files |
| RamManifest.GenerationsAreThere | crates/minidox-vmm/src/ram.rs:317-341 | wherever the checkpoint invariant holds, the generations of every VM are there to be saved |
| RamRestore.GoodPagesPass | crates/minidox-vmm/src/ram.rs:343-432 | pages that lie in their files with one place for each id pass every check |
| RamRestore.PassingPagesAreGood | crates/minidox-vmm/src/ram.rs:343-432 | whatever passes lies in its files, has one place for each id, and has the length its pages make up |
| RamRestore.ReserveGenerationIds | crates/minidox-vmm/src/ram.rs:111-130 | the scan continues past every generation on disk, and no further than it must |
| RamRestore.StateRoundTrip | crates/minidox-vmm/src/ram.rs:329-340 | saved references restore to the same pages |
| RamRestore.CheckpointPassesChecks | crates/minidox-vmm/src/ram.rs:343-432 | the manifest of any recorded checkpoint passes every check of a restore, over all runs |
| RamRestore.PageAccounting | crates/minidox-vmm/src/ram.rs:561-582 | where an id means one place, the distinct places the VMs name, the places two of them name, and the generation files behind them |
| RamManifest.WorldAccounting | crates/minidox-vmm/src/ram.rs:561-582 | in every world of the RAM invariant the account is that of the distinct file slots the VMs refer to and of those two VMs refer to |
| RamManifest.ForkSharesPlaces | crates/minidox-vmm/src/ram.rs:491-559 | after a fork every slot of the source is shared; sealing in place holds no slot more and shares exactly the source's besides |
| RamManifest.ForkHoldsNewPlaces | crates/minidox-vmm/src/ram.rs:523-559 | a fork into a new generation holds what is not copied and one new slot for each page copied |
| RamManifest.AccountingAfterRestart | crates/minidox-vmm/src/ram.rs:343-432 | the VMs of a restored checkpoint refer to what they did, so their account is that of the checkpoint |
| DiskLog.FreeNumber | crates/minidox-redoxfs/src/branching.rs:344-375 | the retry loop ends at a number no file of the kind has, at or past where it starts |
| DiskLog.FreeNumberIsFirst | crates/minidox-redoxfs/src/branching.rs:344-375 | it is the first such number |
| DiskLog.ReplayConcat | crates/minidox-redoxfs/src/branching.rs:205-239 | replaying layers and then an overlay is the overlay over the layers |
| DiskSteps.ForkKeepsInv | crates/minidox-redoxfs/src/branching.rs:259-284 | a fork of a disk keeps the log invariant; both sides show what the source showed |
| DiskSteps.CheckpointKeepsInv | crates/minidox-redoxfs/src/branching.rs:286-316 | a checkpoint's files replay to the disk and are never appended to again |
| DiskSteps.SealedWhenWritten | crates/minidox-redoxfs/src/branching.rs:286-311 | a sealed disk gains one layer exactly when its overlay holds a record, and the layer holds what the overlay did |
| DiskSteps.WriteKeepsInv | crates/minidox-redoxfs/src/branching.rs:532-555 | a block write shows in one disk, is logged, and reaches no layer and no checkpoint |
| DiskRecovery.CrashKeepsInv | crates/minidox-redoxfs/src/branching.rs:200-250 | whatever a crash does to files no checkpoint names, every checkpoint still replays |
| DiskRecovery.RestoreKeepsInv | crates/minidox-redoxfs/src/branching.rs:200-250 | a reopened checkpoint of any process, whatever was written since, shows its blocks, and its files stay as they are |
| DiskRuns.StepRefines | crates/minidox-redoxfs/src/branching.rs:186-316 | every disk operation, crashes and restores of any checkpoint included, has exactly its effect on plain block arrays |
| DiskRuns.RunRefines | crates/minidox-redoxfs/src/branching.rs:186-316 | every run, with crashes anywhere and any checkpoint reopened at any time, is the same run of block arrays that a fork copies |
| DiskRuns.CheckpointsStay | crates/minidox-redoxfs/src/branching.rs:286-316 | nothing that happens later loses or changes a checkpoint |
| DiskRuns.CheckpointRoundTrip | crates/minidox-redoxfs/src/branching.rs:200-316 | checkpoint, any run with crashes, writes and other restores, restore: the disk is as it was |
| DiskIds.StepLogs | crates/minidox-redoxfs/src/branching.rs:186-316 | every disk operation acts on what disks and checkpoints have recorded in its plain way: append one record, copy a log, keep it, or take it back |
| DiskIds.RunIsSound | crates/minidox-redoxfs/src/branching.rs:532-555 | over every run no log contradicts itself and new ids are new to every open disk |
| DiskIds.StepAgreesWhen | crates/minidox-redoxfs/src/branching.rs:377-416 | after a step ids mean one block in all open disks exactly if the step is not a restore that contradicts one of them |
| DiskIds.RunAgreesWhen | crates/minidox-redoxfs/src/branching.rs:377-416 | the same for every point of every run |
| DiskIds.SafeRunAgrees | crates/minidox-redoxfs/src/branching.rs:750-797 | runs that reopen checkpoints only of their own process, or of one other with nothing written since, or while they hold nothing, never meet such a restore |
| DiskSharing.OneDiskOneBlock | crates/minidox-redoxfs/src/branching.rs:377-416 | after any run an id means one block within one disk |
| DiskSharing.SafeRunsShareBlocks | crates/minidox-redoxfs/src/branching.rs:799-818 | after any such safe run blocks with one id are one block in all open disks, so counting ids counts blocks |
| DiskSharing.IdsCanCollide | crates/minidox-redoxfs/src/branching.rs:377-416 | a run after which two open disks show blocks of one id with different bytes |
| DiskSharing.RuleIsNotNecessary | crates/minidox-redoxfs/src/branching.rs:750-797 | the last restore of that run conflicts; another restore breaks the rule on processes without a conflict |
| DiskSharing.SameIdSameBlock | crates/minidox-redoxfs/src/branching.rs:377-416 | blocks with one id, shown by disks whose logs agree, are one block |
| DiskAccounting.BlockAccounting | crates/minidox-redoxfs/src/branching.rs:799-818 | where an id means one block, the distinct blocks the disks show and the blocks two of them show |
| DiskAccounting.SafeRunCountsBlocks | crates/minidox-redoxfs/src/branching.rs:799-818 | after any safe run an id means one block in all open disks, so the account is that of the blocks they show and of those two of them show |
| DiskAccounting.ForkConservesBlocks | crates/minidox-redoxfs/src/branching.rs:449-469 | a fork shows no new block, and shares everything the source shows besides what was shared |
| DiskAccounting.WriteAddsOneBlock | crates/minidox-redoxfs/src/branching.rs:532-555 | a write adds the one new block to one disk and nothing to any other |
| DiskAccounting.RestoreAllShows | crates/minidox-redoxfs/src/branching.rs:750-797 | a lineage of checkpoints of any processes reopened one after the other shows every checkpoint's blocks |
| DiskAccounting.AccountingSurvivesRestart | crates/minidox-redoxfs/src/branching.rs:799-818 | block accounting after a restart is what it was at the checkpoints |
| DiskAccounting.SharingIsMiscounted | crates/minidox-redoxfs/src/branching.rs:799-818 | after the colliding run one shared block is counted where two disks show different ones |
| LayerCodec.DecodeEncode | crates/minidox-redoxfs/src/branching.rs:252-257 | a record survives the eight-byte little-endian format |
| LayerCodec.RecordLayout | crates/minidox-redoxfs/src/branching.rs:252-257 | where each byte of a record is: address, id, both little-endian, then the block |
| LayerCodec.AppendRecord | crates/minidox-redoxfs/src/branching.rs:252-257 | appending a record's bytes to a whole file appends the record |
| LayerCodec.LoadRecords | crates/minidox-redoxfs/src/branching.rs:377-416 | loading refuses a partial record and a block id with two contents, and otherwise replays the file, interning blocks and advancing the id counter |
| LayerCodec.ConsistentPush | crates/minidox-redoxfs/src/branching.rs:395-411 | one more record conflicts exactly when its block is known with other bytes |
| DiskObject.WriteChunksSplice | crates/minidox-redoxfs/src/branching.rs:532-555 | a write of any length and alignment of its end replaces exactly its bytes |
| DiskObject.Lineage.CreateNumbered | crates/minidox-redoxfs/src/branching.rs:344-359 | the loop creates an empty overlay under the first free number |
| DiskObject.Lineage.LinkNumbered | crates/minidox-redoxfs/src/branching.rs:361-375 | the loop links a layer under the first free number |
| DiskObject.CowDisk.constructor | crates/minidox-redoxfs/src/branching.rs:440-447 | a blank durable disk |
| DiskObject.CowDisk.ReadAt | crates/minidox-redoxfs/src/branching.rs:518-530 | reading returns the bytes of a flat array, zeros where nothing was written, and succeeds exactly when the byte range ends within the array and within 64 bits |
| DiskObject.ContentsAt | crates/minidox-redoxfs/src/branching.rs:518-530 | a byte of the array is that of the block shown there, or zero |
| DiskObject.CowDisk.WriteAt | crates/minidox-redoxfs/src/branching.rs:532-555 | writing replaces exactly the bytes of a flat array, also when the block counter wraps, and succeeds exactly when the byte range ends within the array and within 64 bits, with nothing changed otherwise; while block ids last it is the machine's logged write |
| DiskObject.CowDisk.Append | crates/minidox-redoxfs/src/branching.rs:252-257 | three appends put one record at the end of the overlay |
| DiskObject.CowDisk.Fork | crates/minidox-redoxfs/src/branching.rs:449-469 | the method is the machine's fork, overlay sealing included |
| DiskObject.CowDisk.Checkpoint | crates/minidox-redoxfs/src/branching.rs:499-514 | the method is the machine's checkpoint and returns the state it names |
| DiskObject.CowDisk.ContinueOnNewOverlay | crates/minidox-redoxfs/src/branching.rs:298-315 | the overlay becomes a layer if it holds anything, and a new one takes over |
| DiskRestore.LoadSucceedsWhen | crates/minidox-redoxfs/src/branching.rs:205-216 | a list of files loads exactly when each is there and whole and no block is contradicted |
| DiskRestore.FailureIsTheFirst | crates/minidox-redoxfs/src/branching.rs:205-216 | the error is that of the first file that does not load |
| DiskRestore.LoadLayers | crates/minidox-redoxfs/src/branching.rs:205-213 | the loop over layers and its first error |
| DiskRestore.LoadState | crates/minidox-redoxfs/src/branching.rs:205-216 | layers and overlay loaded together |
| DiskRestore.RestoreDisk | crates/minidox-redoxfs/src/branching.rs:200-250 | the method is the machine's restore, or the first error with nothing changed |
| DiskReload.CheckpointsLoad | crates/minidox-redoxfs/src/branching.rs:750-797 | a checkpoint that agrees with itself and with those loaded before it meets no missing, torn or conflicting file |
| DiskReload.LoadedStayKnown | crates/minidox-redoxfs/src/branching.rs:395-411 | blocks interned from checkpoints are ones the checkpoints recorded |
| DiskReload.LoadsWhen | crates/minidox-redoxfs/src/branching.rs:205-216 | with its files intact a checkpoint loads exactly when its records contradict no known block and not each other |
| DiskReload.AnyCheckpointLoads | crates/minidox-redoxfs/src/branching.rs:200-250 | after any run every checkpoint loads on its own, whichever process took it and whatever was written since |
| DiskReload.BatchLoadsWhen | crates/minidox-redoxfs/src/branching.rs:750-797 | checkpoints load together exactly when what they recorded agrees pairwise |
| DiskReload.SameProcessLoads | crates/minidox-redoxfs/src/branching.rs:750-797 | after any safe run the checkpoints of one process load together |
| DiskReload.ConflictIsALoadError | crates/minidox-redoxfs/src/branching.rs:391-400 | a restore keeps ids apart exactly when the checkpoint would also load with the blocks of all open disks known |
| DiskReload.OwnCheckpointsCanConflict | crates/minidox-redoxfs/src/branching.rs:391-400 | after the colliding run a process takes two checkpoints that do not load together |
| PageBranches.WrittenBytes | crates/minidox-fork/src/lib.rs:92-126 | the bytes written are the first of the buffer, and no other byte of any path changes |
| PageBranches.WrittenCount | crates/minidox-fork/src/lib.rs:92-126 | a write takes one id per page it reaches, stops short only when ids run out, and then has written exactly as many pages |
| PageBranches.WriteEach | crates/minidox-fork/src/lib.rs:102-123 | the loop is the page-by-page write |
| PageBranches.WritePages | crates/minidox-fork/src/lib.rs:92-126 | the write with its two overflow errors |
| PageBranches.ReadPages | crates/minidox-fork/src/lib.rs:128-147 | the loop returns every byte of the range, zeros where nothing was written |
| ForestRuns.StepByte | crates/minidox-fork/src/lib.rs:195-278 | what one operation does to one byte of one VM |
| ForestRuns.RunRefines | crates/minidox-fork/src/lib.rs:180-278 | after any run a VM sees at every address the byte last written there by itself or, before the fork, by its ancestors, where a write that runs out of page ids counts as far as it got |
| ForestAccounting.ForkConserves | crates/minidox-fork/src/lib.rs:208-222 | a fork holds the same pages, and shares exactly what the source sees besides |
| ForestAccounting.WriteConserves | crates/minidox-fork/src/lib.rs:92-126 | a write holds one more page for each page it reaches that was not private |
| ForestAccounting.WriteSharesNoMore | crates/minidox-fork/src/lib.rs:92-126 | a write never makes two VMs share a page |
| ForestAccounting.AddRetainedIds | crates/minidox-fork/src/lib.rs:163-171 | the walk collects every page a branch keeps alive |
| ForestAccounting.AccountPages | crates/minidox-fork/src/lib.rs:288-305 | pages kept alive by some branch, and pages two branches see |
| ForestObject.ForkForest.CreateVm | crates/minidox-fork/src/lib.rs:195-206 | a VM with nothing written |
| ForestObject.ForkForest.ForkVm | crates/minidox-fork/src/lib.rs:208-222 | memory and files sealed together; an unknown source changes nothing |
| ForestObject.ForkForest.RemoveVm | crates/minidox-fork/src/lib.rs:224-229 | the VM goes, and nothing else |
| ForestObject.ForkForest.WriteSpace | crates/minidox-fork/src/lib.rs:231-243 | memory and file writes with every error, and how much a failing one wrote |
| ForestObject.ForkForest.ReadSpace | crates/minidox-fork/src/lib.rs:245-278 | memory and file reads with every error |
| ForestObject.ForkForest.PageAccounting | crates/minidox-fork/src/lib.rs:280-286 | the counts are those of the pages of live VMs, per address space |
| ForestObject.SharedIsHeld | crates/minidox-fork/src/lib.rs:288-305 | shared pages never exceed resident ones |
| ForestCounts.RunIsCounted | crates/minidox-fork/src/lib.rs:180-278 | over every run page ids are unique, below the counter, and private pages are held by one VM |
| ForestCounts.ForkAccount | crates/minidox-fork/src/lib.rs:208-222 | after any run a fork leaves the resident pages as they are, and the shared pages become the old ones and all the source sees |
| ForestCounts.WriteAccount | crates/minidox-fork/src/lib.rs:92-126 | after any run a write raises the resident pages by exactly the touched pages that were not private, and shares no more |
| ForestPages.RunIdsMeanPages | crates/minidox-fork/src/lib.rs:180-278 | over every run an id means one page in all VMs and generations |
| ForestPages.AccountIsOfPages | crates/minidox-fork/src/lib.rs:280-305 | after any run resident counts the distinct pages VMs keep alive, and shared the pages two VMs read at some address |
| DaxCache.MapSucceedsWhen | crates/minidox-cache/src/branching.rs:361-438 | mapping succeeds exactly when the file is open and a shared page wanted writable is mapped nowhere by the branch |
| DaxCache.MapAdds | crates/minidox-cache/src/branching.rs:361-438 | a successful mapping adds one live mapping and makes a writable page exclusive |
| DaxWindow.SpecsDisjoint | crates/minidox-vmm/src/virtiofs.rs:420-474 | two pages of a window never overlap |
| DaxWindow.RollBackRemoves | crates/minidox-vmm/src/virtiofs.rs:594-599 | rolling back removes exactly the pages it is given and returns their mappings |
| DaxWindow.ActivateSettles | crates/minidox-vmm/src/virtiofs.rs:529-605 | activation maps every offset inside its file, or leaves the table and the live mappings as they were |
| DaxWindow.ActivateOwns | crates/minidox-vmm/src/virtiofs.rs:529-605 | activation, also when it rolls back, loses no live mapping of the branch |
| DaxResume.ResumesWhen | crates/minidox-vmm/src/virtiofs.rs:524-605 | a suspended window resumes exactly when it has no pages, or is attached, every file is open and no page blocks; otherwise the error is that of its lowest page that does not pass, or ENODEV |
| DaxFork.RemoveEachRemoves | crates/minidox-vmm/src/virtiofs.rs:476-485 | removing pages that have specs removes exactly them |
| DaxFork.RemoveEachFails | crates/minidox-vmm/src/virtiofs.rs:476-485 | a removal stops at the first page without a spec, with those before it gone |
| DaxFork.SetupIsAllOrNothing | crates/minidox-vmm/src/virtiofs.rs:420-474 | a request that fails leaves both tables and the live mappings as they were; one that succeeds adds exactly its pages |
| DaxFork.SetupOwns | crates/minidox-vmm/src/virtiofs.rs:420-474 | a request, whether it succeeds or fails, loses no live mapping of the branch |
| DaxSetup.SetupSucceedsWhen | crates/minidox-vmm/src/virtiofs.rs:420-474 | a request of any length succeeds exactly when it is well formed, its range is free, its file is there, and each of its pages is past the file or can be mapped |
| DaxSetup.WhichCheckFails | crates/minidox-vmm/src/virtiofs.rs:420-447 | which of the three errors a refused request gets |
| DaxFork.SuspendUnmaps | crates/minidox-vmm/src/virtiofs.rs:516-522 | suspending never fails, unmaps every page and keeps every spec |
| DaxFork.SuspendThenResume | crates/minidox-vmm/src/virtiofs.rs:516-527 | when a suspended window comes back, with which pages, and with which error if it is detached; with every page settled before, the same pages come back exactly when the files are open |
| DaxFork.ForkResumesWhen | crates/minidox-vmm/src/virtiofs.rs:130-152 | a fork under any window maps its pages again exactly when there are none, or it is attached, the files are open and no page is first written above where it is read; otherwise it maps none, and the cache branch has forked all the same |
| DaxFork.ForkCanLoseThePages | crates/minidox-vmm/src/virtiofs.rs:130-152 | two accepted requests after which a fork fails with the page busy and no page is mapped any more |
| DaxRuns.RunKeepsWindow | crates/minidox-vmm/src/virtiofs.rs:130-485 | over all runs of requests, removals, attaching, detaching, forks, snapshots and file writes, with the cache moving in between, mapped pages have specs and an attached window, map what their specs say, and are all the mappings the branch holds |
| DaxRuns.StartIsGood | crates/minidox-vmm/src/virtiofs.rs:89-120 | a new window starts so, with or without specs |
| DaxRuns.ChildIsGood | crates/minidox-vmm/src/virtiofs.rs:130-152 | the window of a forked branch starts so with its source's specs |
| DaxRuns.AttachesWhen | crates/minidox-vmm/src/virtiofs.rs:394-408 | attaching a window of some size succeeds exactly when every spec fits it, its file is open and no page blocks; then all pages inside their files are mapped, otherwise none |
| DaxRuns.SyncIsOutside | crates/minidox-vmm/src/virtiofs.rs:158-162 | writing back is a move of the cache the window tolerates |
| DaxRuns.FileAccessIsOutside | crates/minidox-vmm/src/virtiofs.rs:254-285 | so is a file access that returns the mappings it takes |
| DaxRuns.ForkAfterRun | crates/minidox-vmm/src/virtiofs.rs:130-152 | after any run a fork shows all pages inside their files or none, exactly by that condition |
| DaxSnapshot.SyncKeepsWindow | crates/minidox-vmm/src/virtiofs.rs:158-162 | writing back under a suspended window never fails, makes the store the view and changes nothing the window needs |
| DaxSnapshot.SnapshotIsView | crates/minidox-vmm/src/virtiofs.rs:154-188 | suspend, write back, resume: the saved store is what the branch read before, and the window comes back as after a mere suspension |
| DaxObject.VirtioFsBranch.SetupMapping | crates/minidox-vmm/src/virtiofs.rs:420-474 | the method, its checks in order, its loop and its rollback, is the specified request |
| DaxObject.VirtioFsBranch.RemoveMapping | crates/minidox-vmm/src/virtiofs.rs:476-485 | the method is the specified removal |
| DaxObject.VirtioFsBranch.ActivateOffsets | crates/minidox-vmm/src/virtiofs.rs:529-605 | the loop with its rollback is the specified activation |
| DaxObject.VirtioFsBranch.RemoveAt | crates/minidox-vmm/src/virtiofs.rs:607-639 | one page unmapped, and its spec forgotten if asked |
| DaxObject.VirtioFsBranch.SuspendMappings | crates/minidox-vmm/src/virtiofs.rs:516-522 | every mapped page is removed, in order |
| DaxObject.VirtioFsBranch.ResumeMappings | crates/minidox-vmm/src/virtiofs.rs:524-527 | every spec is activated, in order of offset |
| DaxObject.VirtioFsBranch.AttachWindow | crates/minidox-vmm/src/virtiofs.rs:394-408 | a second window is refused; a window whose pages cannot be mapped is not attached |
| DaxObject.VirtioFsBranch.DetachWindow | crates/minidox-vmm/src/virtiofs.rs:410-418 | detaching the window attached at that address with that length unmaps its pages; any other request changes nothing |
| DaxObject.VirtioFsBranch.Fork | crates/minidox-vmm/src/virtiofs.rs:130-152 | suspend, fork, resume, and which error is reported, for attached, detached and empty windows; on tables in order, exactly when it succeeds and what the window shows then |
| DaxObject.ForkedWhen | crates/minidox-vmm/src/virtiofs.rs:130-152 | a fork succeeds exactly when the cache branch can fork and the window comes back; a detached window with pages gives ENODEV |
| DaxObject.VirtioFsBranch.DurableSnapshot | crates/minidox-vmm/src/virtiofs.rs:154-188 | the saved store holds what the branch reads, no byte changes, and it succeeds exactly when the window comes back |
| CheckpointBarrier.SavesUnderFullPause | crates/minidox-vmm/src/supervisor.rs:443-518 | whenever a guest is saved, every guest has been paused and not resumed since |
| CheckpointBarrier.HeldIsFixed | crates/minidox-vmm/src/supervisor.rs:449-513 | a paused guest stays exactly as it was until it is asked to resume |
| CheckpointBarrier.OneMoment | crates/minidox-vmm/src/supervisor.rs:443-518 | from the last pause until its own resume every guest is as it was at that pause, so all saves show one moment |
| CheckpointBarrier.ResumedExactlyOnce | crates/minidox-vmm/src/supervisor.rs:449-513 | exactly the guests that were paused are asked to resume, once each, whatever failed |
| CheckpointBarrier.ResumedAsOftenAsPaused | crates/minidox-vmm/src/supervisor.rs:449-513 | every guest is resumed as often as it was paused, whatever failed |
| CheckpointBarrier.Supervisor.PauseAll | crates/minidox-vmm/src/supervisor.rs:449-458 | guests are paused in order up to the first that refuses |
| CheckpointBarrier.Supervisor.SaveAll | crates/minidox-vmm/src/supervisor.rs:460-497 | every saved guest is saved as it was when the saving began |
| CheckpointBarrier.Supervisor.ResumeAll | crates/minidox-vmm/src/supervisor.rs:507-513 | paused guests are resumed in reverse, past failures |
| CheckpointBarrier.Supervisor.PublishManifest | crates/minidox-vmm/src/supervisor.rs:654-664 | a rename that fails leaves the old manifest; one that succeeds leaves the new one, also when syncing the directory fails |
| CheckpointBarrier.Supervisor.Checkpoint | crates/minidox-vmm/src/supervisor.rs:443-518 | the manifest is replaced only if every guest was paused, saved and resumed, and then it holds every guest as it was right after the last pause; it succeeds only if the replacement was also made durable |
| ForkBarrier.ResumedOnce | crates/minidox-vmm/src/supervisor.rs:390-413 | the source of a fork is asked to resume exactly once if it was paused and never otherwise, whatever failed |
| ForkBarrier.OnlyUnderPause | crates/minidox-vmm/src/supervisor.rs:393-410 | machine state, files and memory are only ever taken between the pause and the resume |
| ForkBarrier.Supervisor.PrepareAndPause | crates/minidox-vmm/src/supervisor.rs:387-391 | the calls ahead of the pause, and the source as it is when the pausing call is made |
| ForkBarrier.Supervisor.TakeParts | crates/minidox-vmm/src/supervisor.rs:393-410 | three calls, each taking one part as the source has it then, up to the first failure |
| ForkBarrier.Supervisor.TakeUnderPause | crates/minidox-vmm/src/supervisor.rs:393-412 | machine, files and memory, each taken at its own call, are those of the pause; the resume follows any failure |
| ForkBarrier.Supervisor.ForkVm | crates/minidox-vmm/src/supervisor.rs:382-433 | a child appears only if everything succeeded, and then every part of it is what the source was at the call that paused it; the source is left running unless its own resume failed |

## Left out

- DiskRestore.RestoreDisk: ties its counters to the machine only while they fit 64 bits; the code saturates them.
- DaxObject.VirtioFsBranch.Fork: does not build the child's own object, whose files are opened before its window is attached.
- DaxObject.VirtioFsBranch.RemoveAt: assumes that the host can replace an unmapped window page by an anonymous one.
- CheckpointBarrier.Supervisor.Checkpoint: treats what is saved of a guest as one value; that its RAM and disk parts restore is stated in RamCheckpoint and DiskRuns separately.
- SharedCache.SharedPageCache.CreateFile: stands for every use of `with_store_mut` that changes a store; the other uses only read lengths, names and metadata.
- Input and output errors of reading, writing and syncing files are not modelled in the cache, RAM and disk layers, except where the table names them.
- A RAM fork whose dirty log has been taken is assumed to run to its end; a fork that fails half way loses the log in the code.
- Object, version, page and generation counters are unbounded where the code uses unchecked 64-bit counters.
- RedoxFS itself (directories, transactions, the tree) and the conversion of inode numbers are not modelled; a store is its files and page names.
- The hypervisor: vCPU state, devices, memory slots, the Cloud Hypervisor process. Starting a child is one call that succeeds or fails, and `open` only orders calls the other layers specify.
- `materialize`, `register`, `discard_private_pages` and sparse copying of generation files, which change how memory is mapped or stored and not what it holds.
- The single-branch page cache of `crates/minidox-cache/src/lib.rs`, a simpler relative of the shared one.
- `minidox_fork::Supervisor`, which pairs a page branch with a cache branch and adds no rule of its own.
- Manifests as JSON and file names; writing the temporary manifest and renaming it over the old one is one step that succeeds or fails.
