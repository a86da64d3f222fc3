# SlabStore in Dafny

SlabStore keeps key-value records in persistent memory. The records live in regions handed out by a
slab allocator; a volatile extendible hash index finds them; after a crash the index is rebuilt by a
scan of every region in use. This project models the four parts that have to fit together for that to
be safe, and proves what each owes the others.

**Records, crashes and recovery** (`RecordMemory`, `RecordWrite`, `StoreMachine`, `StoreInvariant`,
`Recovery`, `Durability`, `Freshness`, `Lookups`, `SoloRun`, `LostWrite`, `MissingKey`, `ControlWord`).
Any number of threads run upsert, update, remove and lookup as a step machine: take a version, take a
region (new, or a garbage record reused without a log), write the record store by store, set the token,
link the record in the index, retire the loser. A crash leaves, for each cache line, some prefix of the
stores since the last fence; what was written back and fenced is complete. Recovery scans the busy regions
in any order, may itself be cut off by crashes any number of times, and leaves superseded records to the
epoch. `Lookups` says what every lookup answers, in terms of the operations linked or recovered before it.

**Extents** (`ExtentPool`, `ExtentSpec`, `ExtentMeta`). The persistent extent allocator with its
double-buffered metadata, its two intrusive free lists and its one-word commits. Every store of every
operation is a crash point.

**The index** (`HashCode`, `HashBucket`, `HashDirectory`, `HashTable`, `SplitRace`, `SplitRaceProof`,
`FastReboot`). Tag-filtered buckets, segment split and directory doubling refine a finite map. A second
step machine has any number of threads in upserts, lock-free updates, lookups, segment splits and
directory doublings, one atomic load, store, compare-and-swap or exchange at a time, over all buckets a
key can ever be sent to; a full bucket of any number splits the whole segment. Unload and reload are a
round trip.

**The slab hierarchy** (`SizeClass`, `RegionLayout`, `RunSizes`, `RunBits`, `RunBin`, `SlabHeap`,
`SlabHeapProof`, `SlabMemory`, `SlabHold`, `SlabReboot`, `SlabAllocator`, `SlabCrash`, `SlabCrashProof`,
`SlabMarks`, `SlabRecover`, `SlabRecoverRace`; `Basics` holds what all parts share). Thread cache over arena bin over
run bin over extent. A step is what the source does under one bin's lock together with the locks taken
inside it; threads interleave these steps freely. `SlabMemory` gives every region its bytes and proves
that no two regions in anybody's hands share one; `SlabHold` says what the hold counts achieve.
`SlabCrash` cuts these steps at every store to bitmaps, run metadata and tokens, with write-backs and
waits, and lets a crash fall anywhere; `SlabRecoverRace` runs the rebuild with the rebuilder's releases in
between.

What the code turned out to do, where that differs from what one would expect:

- Recovery sets a version slot to the highest recovered version, but operations post-increment the slot
  (`store/hash-store.h:295-297`, `store/hash-store.h:460`). The next write to the key that holds the
  slot's maximum gets a version that is not newer, is dropped as expired, and returns like an update that
  took effect. `WriteTakesEffectIffClean` gives the exact condition, which a caller could check before the
  call; `RecoveryLeavesStaleCounter` shows that every recovery with a record in a slot leaves such a key;
  `AcknowledgedWriteIsLost` is the run, from a new store, for any key and values.
- Removing a key that is not in the index recycles the record that the index has just taken
  (`store/hash-store.h:595-599`), and updating one leaves a valid busy record outside the index
  (`store/hash-store.h:532-538`). `LinkKeepsInvIff` is the exact condition; `UpdateMissingComesBack` shows
  that after such an update every crash brings the key in; `RemoveMissingCorrupts` and `RemoveMissingRun`
  build the run, the latter from a new store, after which the index leads one key to another key's record.
  The comments in the source restrict both calls to existing keys, and so does the machine's
  `CallAllowed`.
- The result of the recovery scan depends on the scan order if, and only if, two valid records of a key
  tie at its highest version (`OrderIndependentIff`). The stale counter makes such ties: after the run
  above one scan order brings the lost write back and another does not (`ScanOrderDecides`).
- A region that its user never published survives close and reboot only if the user holds its run
  entirely; the comment at `slab/slab.h:413-418` reads as if every region that was not released survived.
  `RebootPreservesIff` is the exact condition.
- The upsert retry loop ends exactly when the key is present or fewer than 48 stored keys agree with it on
  enough low hash bits (`HashTable.Upsert`, `RetryNeverEnds`).
- `same_cache_line` looks at the byte after the record, so a record that ends on a line's last byte takes
  the multi-line branch; the model does the same.
- `sizeof(SmallMeta)` is 24 with padding while the tokens start at offset 17; region counts use 24, as the
  code does.

## Model

| member | source | states |
|---|---|---|
| RecordWrite.WriteKeepsShape | store/hash-store.h:470-486 | every store, write-back and fence of writing a record, fresh or reused, keeps the relation between stage, durable record and pending stores that the crash results rest on |
| RecordWrite.ReuseIsTornFree | store/hash-store.h:470-479 | at every point of rewriting a garbage record, in the one-line and the multi-line branch, every crash image is the whole old record, an invalid record or the whole new one; before the control word is written it is the old record or an invalid one, and the new one is certain once the record may be linked |
| RecordWrite.LinkedIs | store/hash-store.h:574-592 | when a record may be linked it is durable with its operation's key, version and value, and it is a tombstone if and only if the operation is a remove |
| ControlWord.ControlRoundTrip | store/kv-type.h:42-53 | invalid, tombstone and load_version read back what set_control stored if and only if the version fits 62 bits |
| ControlWord.InvalidIsDistinct | store/kv-type.h:47-49 | an invalidated control word differs from every word set_control can store |
| Recovery.ScanFindsWinners | store/hash-store.h:271-301 | after visiting any distinct busy regions in any order: the index holds, per key, the first of the highest-version valid records, everything else is released, each version slot is the maximum seen |
| Recovery.Rebuild | store/hash-store.h:271-301 | the scan loop yields exactly those winners, the released regions and the version table |
| Recovery.IndexIsNewest | store/hash-store.h:271-301 | a complete scan indexes exactly the keys that have a valid record, each by a record of the highest version |
| Recovery.VersionsOrderFree | store/hash-store.h:271-301 | version table, indexed keys and indexed versions do not depend on the scan order |
| Recovery.SameResult | store/hash-store.h:284-297 | when no two valid records of a key tie at its highest version the whole result, released regions included, is the same for every order |
| Recovery.OrderIndependentIff | store/hash-store.h:284-297 | the whole result is the same for every order if and only if no two valid records of a key tie at its highest version |
| Recovery.RescanAfterCrash | store/hash-store.h:271-301 | a second crash during the scan, whatever part of the releases it kept, does not change the recovered keys, versions and version table |
| Recovery.RescanAfterCrashes | store/hash-store.h:271-301 | nor does any number of crashes, each during the scan that follows the one before |
| StoreInvariant.BeginInv | store/hash-store.h:458-462 | taking a version keeps the store invariant: every valid durable record is in flight or no newer than its key's index entry |
| StoreInvariant.TakeInv | store/hash-store.h:468-482 | taking a region from the limbo list or the allocator keeps the store invariant |
| StoreInvariant.RecordInv | store/hash-store.h:470-486 | every store to the record keeps the store invariant |
| StoreInvariant.TokenInv | store/hash-store.h:480-487 | setting and persisting the token keeps the store invariant |
| StoreInvariant.LinkInv | store/hash-store.h:489-491 | linking, winning or expired, keeps the store invariant when the key is known or the call is an upsert |
| StoreInvariant.RetireInv | store/hash-store.h:491-496 | retiring the loser keeps the store invariant |
| StoreInvariant.RecycleInv | store/hash-store.h:112-130 | an epoch callback that puts a garbage record on a limbo list keeps the store invariant |
| StoreInvariant.FireInv | store/hash-store.h:112-121 | releasing a garbage record to the allocator keeps the store invariant |
| StoreInvariant.ReadInv | store/hash-store.h:550-556 | finding a record, missing one and answering from one keep the store invariant; what is answered is the subject of Lookups |
| Durability.NextInv | store/hash-store.h:458-607 | every step of every operation, and every crash with recovery, keeps the store invariant |
| Durability.RecoverInv | store/hash-store.h:271-301 | whatever a crash leaves, however often the scan is cut off, in whatever order it is made and whichever superseded records are still waiting for the epoch, recovery re-establishes the store invariant |
| Durability.DurabilityOverRuns | store/hash-store.h:271-301 | for every interleaving, with any crashes and recoveries in it, and a crash anywhere, also inside recovery: every key with a completed operation is recovered, by a record that one operation wrote whole, that is no older than any completed operation on the key, and whose version is the one the index had or which was in flight |
| Durability.ReadersSeeWholeRecords | store/hash-store.h:550-556 | in every run, the record that a lookup found stays whole, valid and its key's until the reader leaves |
| Lookups.LookupIsCurrent | store/hash-store.h:550-557 | in every run, a lookup that finds a record answers for the operation whose record a link or a recovery put in place last before the lookup: its value, or not found if it is a remove; no operation on the key completed until then is newer |
| Lookups.MissIsCurrent | store/hash-store.h:551-554 | a lookup that finds no record: no operation on the key was completed, and no record of it was ever put in place |
| Lookups.Origin | store/hash-store.h:489-491 | every record the index leads to was put there by one link or recovery, of that operation, and nothing replaced it since |
| Lookups.AnswerAfterWrite | store/hash-store.h:458-607 | a lookup after an unraced call answers the value of a clean upsert or update, not found after a clean remove, and what it answered before if the call was not clean |
| Freshness.AcknowledgedIsRecovered | store/hash-store.h:458-607 | over every run whose calls were all made on keys older than their version slot: a completed operation is itself what is recovered, or something strictly newer is |
| Freshness.FirstSessionIsClean | store/hash-store.h:458-462 | before the first crash every call is such a call |
| Freshness.RecoveryLeavesStaleCounter | store/hash-store.h:295-297 | after every recovery, each slot with a record has a key whose version equals the slot's counter |
| Freshness.WriteTakesEffectIffClean | store/hash-store.h:458-496 | a write that nobody races is linked if and only if the key's version was below its slot's counter when it was called; otherwise the index is unchanged and the new record is retired |
| SoloRun.ToLink | store/hash-store.h:470-487 | from any stage of writing its record, fresh or reused, a thread that nobody disturbs reaches the link with record and token whole and durable and nothing else changed |
| SoloRun.CallToLink | store/hash-store.h:458-487 | so does a call of an idle thread with a free region that fits |
| LostWrite.AcknowledgedWriteIsLost | store/hash-store.h:295-297 | in every new store with a thread and two regions, for every key and two values: a run in which the first value is written, then a crash and recovery, then the second value is written and acknowledged, and the store still holds the first |
| LostWrite.ScanOrderDecides | store/hash-store.h:284-297 | continuing that run with a crash: the two records tie, one scan order recovers the first value and the other the second, which no index entry led to and nobody was writing |
| MissingKey.LinkKeepsInvIff | store/hash-store.h:532-538 | linking keeps the store invariant if and only if the operation is an upsert or the key is in the index |
| MissingKey.UpdateMissingComesBack | store/hash-store.h:532-538 | updating a missing key changes no lookup and completes nothing, but every crash before its record is reused recovers the key, at the update's version or a newer one |
| MissingKey.RemoveMissingCorrupts | store/hash-store.h:595-599 | removing a missing key lets the same thread's next write put another key's record where the index leads the removed key |
| MissingKey.RemoveMissingRun | store/hash-store.h:595-599 | the same as a run from any new store with a thread and a region, for any two keys |
| ExtentPool.ResumeRepairs | slab/meta-file.h:327-354 | a pool in which at most the first free descriptor's type is stale stands, after resume, for the same state |
| ExtentPool.FreeIffInvalid | slab/meta-file.h:349-353 | below ext_used a descriptor is on the free list if and only if its type is invalid |
| ExtentPool.ChainUnique | slab/meta-file.h:96-160 | the list heads and links of a pool determine the free list |
| ExtentPool.StateUnique | slab/meta-file.h:72-256 | a pool stands for at most one state: used counts, both free lists, and the allocated extents with their meaning |
| ExtentSpec.AcquireKeeps | slab/meta-file.h:96-212 | an acquired extent was nobody's, free and allocated extents still partition the used ones, and the medium metadata it gets is unshared and within the segment |
| ExtentSpec.AcquiredIs | slab/desc.h:99-122 | an acquired extent is of the kind, run case and size asked for, its parts fill it without a rest, none is in use, it has medium metadata exactly if it is medium, and every other extent is as it was |
| ExtentSpec.ReleaseKeeps | slab/meta-file.h:217-256 | a release keeps the partition and the conservation of medium metadata; it puts the extent, and the metadata array of a medium one, in front of the free lists and changes nothing else |
| ExtentSpec.ReleaseUndoesReclaim | slab/meta-file.h:96-256 | releasing what was just taken from the free lists restores both lists exactly |
| ExtentMeta.MetaHead.constructor | slab/meta-file.h:273-286 | a new pool stands for the empty state |
| ExtentMeta.MetaHead.Acquire | slab/meta-file.h:402-406 | acquire yields an extent exactly when a free or unused one exists, as asked for, leaves the pool standing for the state after, and at every crash point inside it resume brings back the state before or the state after |
| ExtentMeta.MetaHead.PlainReclaim | slab/meta-file.h:123-138 | the one-word commit from the free list is crash atomic |
| ExtentMeta.MetaHead.PlainAllocate | slab/meta-file.h:186-199 | the one-word commit of a never used extent is crash atomic |
| ExtentMeta.MetaHead.AllocateMeta | slab/meta-file.h:72-87 | the shadow metadata ends as the current one less one array of medium metas, and no crash can see it |
| ExtentMeta.MetaHead.ComplexReclaim | slab/meta-file.h:96-116 | two lists change together through the switch of mind, crash atomically |
| ExtentMeta.MetaHead.ComplexAllocate | slab/meta-file.h:162-178 | bump allocation of an extent and of medium metas commits at the switch of mind |
| ExtentMeta.MetaHead.Release | slab/meta-file.h:412-419 | release leaves the pool standing for the released state, with every crash point inside it before or after |
| ExtentMeta.MetaHead.PlainRelease | slab/meta-file.h:243-256 | linking, switching the head and marking the type in that order is crash atomic |
| ExtentMeta.MetaHead.ComplexRelease | slab/meta-file.h:217-237 | both lists get their element back at the switch of mind, crash atomically |
| ExtentMeta.MetaHead.ResumeHead | slab/meta-file.h:327-354 | resume in place computes the repaired pool and leaves it durable; a crash inside it is repaired by the next resume |
| ExtentMeta.MetaHead.Record | slab/meta-file.h:386-393 | recording puts the extent in front of the list of extents to reload |
| ExtentMeta.MetaHead.Drain | slab/meta-file.h:299-316 | the walk after an orderly close returns exactly the recorded extents, in order, and restores the allocator state |
| ExtentMeta.Reopen | slab/meta-file.h:327-354 | whatever a crash leaves at a crash point of an operation, opening it and resume yield a head that stands for the state before the operation or for the state after, with every crash point of resume itself repaired to the same state |
| ExtentMeta.RunKeepsInv | slab/meta-file.h:72-87 | over every run of acquisitions, releases, crashes and resumes: free and allocated partition the used extents, med_used is 32 times the live and free arrays together, and never passes 32 times the number of extents |
| HashCode.SlicesAreCode | store/hash-table.h:53-68 | bucket index byte, bucket tag, slot tag and the low 32 bits make up the hash code: every bit is in exactly one slice |
| HashBucket.UpsertMeaning | store/hash-table.h:209-254 | upsert in a bucket: which answer comes when, in both directions, what the key finds afterwards, and that no other key is affected |
| HashBucket.SplitMeaning | store/hash-table.h:144-170 | after a bucket split every key is found in exactly the half that its next hash bit names, with the same record |
| HashBucket.HashBucket.Search | store/hash-table.h:209-219 | the tag-mask scan finds the slot that a linear scan of the slots in use finds |
| HashBucket.HashBucket.Lookup | store/hash-table.h:302-319 | lookup returns what a linear scan returns |
| HashBucket.HashBucket.Insert | store/hash-table.h:209-254 | upsert on the arrays computes the bucket that UpsertIn describes |
| HashBucket.HashBucket.Split | store/hash-table.h:144-170 | the splitting constructor leaves the two halves that SplitBucket describes |
| HashDirectory.DoubledKeeps | store/hash-table.h:527-534 | doubling keeps the directory invariant (two entries share a segment exactly when they agree on its local depth, every segment is reached, every key is at home) and every lookup |
| HashDirectory.SplitKeeps | store/hash-table.h:517-545 | replacing a segment by its halves and redirecting its entries keeps the directory invariant and every lookup, and deepens the segment by one |
| HashTable.NoSpaceIff | store/hash-table.h:504-515 | a pass finds no space if and only if the key is missing and 48 stored keys of its bucket agree with it on the segment's local depth |
| HashTable.PassRefines | store/hash-table.h:495-512 | a pass that finds space does to the table what the map operation does, with the same answer |
| HashTable.RetryNeverEnds | store/hash-table.h:495-546 | a missing key crowded by 48 keys at every depth is refused by every table with these contents |
| HashTable.HashTable.constructor | store/hash-table.h:430-440 | a new table satisfies the directory invariant and is empty |
| HashTable.HashTable.Lookup | store/hash-table.h:588-608 | lookup returns what the map holds |
| HashTable.HashTable.Upsert | store/hash-table.h:489-548 | upsert terminates across any number of splits and doublings: a missing key is inserted, a key whose record is not older is left as it is and answered as expired, another gets the new record and the old one is returned; no other key is affected |
| HashTable.HashTable.Update | store/hash-table.h:558-578 | update of a missing key answers not found and changes nothing; a key whose record is not older is left as it is and answered as expired; another gets the new record and the old one is returned; no other key is affected |
| HashTable.HashTable.Double | store/hash-table.h:527-534 | doubling happens exactly when the segment has a single entry and keeps contents and invariant |
| HashTable.HashTable.SplitSegment | store/hash-table.h:517-545 | one split keeps contents and invariant and deepens the key's segment |
| HashTable.HashTable.Destroy | store/hash-table.h:457-471 | the destructor deletes every segment, each exactly once |
| SplitRaceProof.StepIsAtomic | store/hash-table.h:489-548 | every atomic action of upserts, updates, lookups, splits and doublings of any number of threads, splits for a full bucket of another number included, keeps the invariant and changes the contents as one map operation with its reply, or not at all |
| SplitRaceProof.NewTableInit | store/hash-table.h:430-440 | a new table of any global depth and any local depth up to it, with any threads, is a start of such runs |
| SplitRaceProof.Linearizable | store/hash-table.h:261-288 | in every interleaving, with any number of splits and doublings started from any bucket, every step changes the contents as its reply says, which is the answer a plain map gives there, and a silent step does not change them |
| SplitRaceProof.OperationIsAtomic | store/hash-table.h:489-608 | between an operation's call and its thread's next idle moment exactly one step of the thread replies, for that operation, and the operation takes effect at that step |
| SplitRaceProof.BucketHolds | store/hash-table.h:588-608 | at every moment, the bucket the directory sends a key to, when nobody has it locked, holds what the contents say of the key |
| SplitRaceProof.NeverNull | store/hash-table.h:144-254 | the pointers that an upsert or a split follows without a check are never null |
| SplitRaceProof.NeverOlder | store/hash-table.h:261-288 | a key that is found stays found and only ever changes to a newer record |
| SplitRaceProof.NoLostUpdate | store/hash-table.h:222-251 | what a successful update or upsert stored, at whatever moment of whatever splits, is found ever after or was superseded by a newer record |
| FastReboot.PackBucket | store/hash-store.h:212-232 | unloading a bucket keeps exactly the slots that are not reclaimed tombstones |
| FastReboot.UnpackBucket | store/hash-store.h:363-376 | reloading a bucket restores tags, pointers and depth of the packed slots |
| FastReboot.Unload | store/hash-store.h:203-241 | unloading writes each segment once and the sharing of the directory entries |
| FastReboot.Reload | store/hash-store.h:332-431 | reloading the segments in any order, and then the sharing entries, yields a table in order that shares segments between the same entries and finds every live record as before, a tombstone exactly when tombstones are not reclaimed, and nothing else |
| FastReboot.RebootRoundTrip | store/hash-store.h:332-431 | the reloaded table satisfies the directory invariant, shares segments between the same entries, and finds every live record as before, a tombstone exactly when tombstones are not reclaimed, and nothing else |
| SizeClass.LeastClass | slab/size.h:45-58 | a size's class holds it and the class before does not |
| SizeClass.Galois | slab/size.h:45-58 | the index of a size is at most i if and only if the size of i is at least the size, for all sizes and indices |
| SizeClass.IndexOfSize | slab/size.h:45-58 | the index of a class size is that class |
| SizeClass.SameQuantum | slab/size.h:61-66 | all sizes of one quantum have one class, which is why a table of quanta suffices |
| SizeClass.LimboRegionFits | store/hash-store.h:112-130 | a region on the limbo list that a record's size selects is large enough for the record |
| SizeClass.Tables.constructor | slab/size.h:69-76 | the loops fill both tables with the computed values |
| SizeClass.Tables.Size2Index | slab/size.h:87-95 | the lookup form agrees with the computed form on every size up to the medium limit |
| SizeClass.Tables.Index2Size | slab/size.h:100-105 | the lookup form agrees with the computed form on every cached class |
| RegionLayout.SmallRegionCount | slab/run.h:73-83 | the loop terminates for every region size of at least 2 and returns the largest count that fits beside its own metadata |
| RegionLayout.MediumRegionCount | slab/run.h:90-97 | the loop returns the largest count whose regions fill whole pages |
| RegionLayout.SmallRegionInRun | slab/arena.h:69-71 | regions lie behind the tokens, inside the run, and no two of them overlap |
| RegionLayout.SmallDecodes | slab/tcache.h:207-217 | release decodes every region's address back to its extent, run and index |
| RegionLayout.MediumDecodes | slab/tcache.h:181-191 | the same for medium runs |
| RunSizes.RunHoldsRegion | slab/const.h:73-76 | the run that a cached class is cut from holds a region of it, for a small class with metadata and tokens beside the regions; small classes, and no others, get small run types |
| RunSizes.RunsPerExtent | slab/const.h:46-91 | runs of each type cut an extent without a rest, into at most 256 small or 32 medium ones; small run sizes double from 4 pages, medium ones from 32 |
| RunSizes.RegionCount | slab/run.h:73-97 | the count of regions that a cached class's run gets is the largest that fits, for small runs beside the metadata and for medium runs in whole pages, and at least one |
| RunBits.FillMeaning | slab/bits.h:164-197 | fill hands out min(wanted, free) distinct free regions below the count, and the lowest ones |
| RunBits.RunBits.constructor | slab/bits.h:55-64 | a run starts with no region handed out, or with all of them and no bit past the count |
| RunBits.RunBits.Reload | slab/bits.h:83-106 | the handed-out regions become exactly those with a busy token, and the counter their number |
| RunBits.RunBits.FillRegions | slab/bits.h:164-197 | inline and multi-word form append exactly the regions of FillMeaning and mark them |
| RunBits.RunBits.Dealloc | slab/bits.h:203-215 | a returned region, and no other, becomes free; the counter stays the number of ones |
| RunBits.RunBits.AllocLarge | slab/bits.h:220-228 | a large region is the lowest free one |
| RunBin.CheckFromTakenRun | slab/run.h:195-196 | looking for another free run from the word of the run just taken finds none if and only if every run is in use |
| RunBin.TakeKeeps | slab/run.h:173-203 | the run taken was free, and the bin still holds exactly the extents with a free run |
| RunBin.GiveKeeps | slab/run.h:252-270 | a returned run keeps the bin exact, and an extent that leaves was in the bin before the call, so the iterator that erases it is valid |
| RunBin.ReloadKeeps | slab/run.h:144-151 | reloading a recorded extent keeps the bin exact |
| RunBin.ExtentDesc.LocateSmall | slab/desc.h:221-231 | the word scan finds the lowest free run from the start of the given run's word |
| RunBin.ExtentDesc.LocateMedium | slab/desc.h:263-270 | the byte scan finds the lowest free run from the given one |
| RunBin.ExtentDesc.SmallBusy | slab/desc.h:176-183 | srun_busy tells whether any run is in use |
| RunBin.ExtentDesc.MediumBusy | slab/desc.h:188-194 | mrun_busy tells whether any run is in use |
| RunBin.ExtentDesc.Palloc | slab/desc.h:237-282 | one run, and no other, becomes used, in the bitmap of words and in that of bytes; a crash inside leaves the old or the new bitmap, and on return the new one is durable |
| RunBin.ExtentDesc.Pdealloc | slab/desc.h:250-293 | one run, and no other, becomes free, in the bitmap of words and in that of bytes; a crash inside leaves the old or the new bitmap, and on return the new one is durable |
| RunBin.RunBin.Acquire | slab/run.h:173-243 | acquire takes the lowest free run of an extent in the bin, or of a new one when the bin is empty, fails only without extents, and keeps the bin exact |
| RunBin.RunBin.Release | slab/run.h:252-297 | release returns the run, or at close only announces a half-used one; an extent without runs leaves unless it is the only one |
| SlabHeapProof.StockInv | slab/arena.h:62-78 | buying a run for an empty arena bin, cut into the regions its class demands, keeps every region in one place |
| SlabHeapProof.FillOwn | slab/arena.h:163-174 | filling a cache from a run keeps every region in one place |
| SlabHeapProof.PopIsFresh | slab/tcache.h:115-126 | the region a cache gives is not the user's, in no other cache and nowhere else in this one |
| SlabHeapProof.FreeInv | slab/tcache.h:131-136 | a freed region is in its cache and nowhere else |
| SlabHeapProof.BackAllocated | slab/arena.h:183-223 | giving a region back to its run, with the run and the extent possibly released, removes that region and no other from the handed-out ones |
| SlabHeapProof.SpillInv | slab/tcache.h:49-74 | spilling a region keeps every region in one place and every bin exact |
| SlabHeapProof.NextInv | slab/tcache.h:49-136 | every step keeps the invariant of bins, bitmaps, metadata and ownership |
| SlabHeapProof.InitInv | slab/slab.h:271-286 | a new pool with empty bins and caches satisfies the invariant |
| SlabHeapProof.TraceInv | slab/arena.h:163-223 | so does every run of steps of any threads |
| SlabHeapProof.OnePlace | slab/tcache.h:49-136 | in every run, a region of a run in use is in exactly one of: its run, the user's hands, one position of one cache |
| SlabMemory.NoOverlap | slab/arena.h:69-71 | in every run of the allocator no two regions that left their runs share a byte, and each lies within its run and behind a small run's metadata and tokens |
| SlabMemory.PointerDecodes | slab/tcache.h:181-217 | the address of every region that left its run leads back to its extent, run and index |
| SlabMemory.NextLaid | slab/run.h:185-203 | every step keeps every run in use cut as its class demands and every extent into runs of its bin's size |
| SlabMemory.NewPoolLaid | slab/run.h:58-66 | so is a new pool whose run bins have the run sizes of the table |
| SlabHold.SpillKeepsOne | slab/arena.h:183-223 | the run of a spilled region leaves its arena bin if and only if this was the last of its regions out and the bin has another run; the bin is left with a run, and its other runs are as they were |
| SlabHold.StaysLean | slab/const.h:78-83 | in every run from a new pool each arena bin holds at most one entirely free run and each run bin at most one extent without runs in use |
| SlabAllocator.Allocator.FillCacheBin | slab/arena.h:163-174 | the loop terminates, only appends to the cache it fills, reaches the restock quantity or stops with the arena bin, the run bin and the extents exhausted |
| SlabAllocator.Allocator.Acquire | slab/tcache.h:115-126 | acquire returns a region that nobody held, unpublished, of the right size class, from a run cut as the class demands, or none only when everything below is exhausted |
| SlabAllocator.Allocator.AcquireSize | slab/tcache.h:257-275 | a request of at most 64KB gets a region of the least size class that holds it; a request of no bytes gets none and changes nothing |
| SlabAllocator.Allocator.SpillCacheBin | slab/tcache.h:79-85 | a full cache bin drains its oldest regions to one below the stock, and exactly these go back to their runs |
| SlabAllocator.Allocator.Release | slab/tcache.h:181-225 | release takes the region, and no other, from the user, clears its token and no other, and keeps the invariant |
| SlabAllocator.Allocator.DrainCache | slab/tcache.h:91-91 | destroying a cache bin returns exactly its regions |
| SlabReboot.CloseStep | slab/arena.h:83-98 | closing one arena bin entry releases a free run, or announces and marks a half-used one, and keeps track of what is still live, marked and announced |
| SlabReboot.ClosedRun | slab/run.h:102-113 | after a close a run is in use exactly if it was and was not entirely free, is marked exactly if it was half used, and then its extent is recorded |
| SlabReboot.ReopenInv | slab/slab.h:102-120 | close and reboot re-establish all bin and ownership invariants, and hand out exactly the regions that were published or in runs handed out entirely |
| SlabReboot.RebootPreservesIff | slab/slab.h:102-120 | the regions the user had before the close are the ones handed out after the reboot if and only if each of them was published or is in a run of which the user had every region |
| SlabCrashProof.SetBitInv | slab/run.h:185-203 | setting the bit of a run after its metadata was written back and waited for keeps the crash invariant: a bitmap that a crash may leave shows only runs whose metadata is whole and durable |
| SlabCrashProof.ConstructInv | slab/desc.h:319-323 | so does every store of a run's metadata and tokens, in any order, before the bit |
| SlabCrashProof.ClearBitInv | slab/desc.h:250-256 | so does clearing the bit of a run that leaves its arena bin |
| SlabCrashProof.DropExtentInv | slab/run.h:265-269 | so does returning an extent without runs once the cleared bit is durable |
| SlabCrashProof.NewExtentInv | slab/run.h:58-66 | so does an extent that enters an empty run bin |
| SlabCrashProof.DropIsSpill | slab/run.h:252-270 | clearing the bit of a run, waiting for it and dropping its extent are together exactly the return of the run to its bin, which keeps one extent |
| SlabCrashProof.NewExtentIsStock | slab/run.h:58-66 | a new extent for an empty run bin and the run taken from it are together exactly the purchase of a run |
| SlabCrashProof.PublishTokenInv | slab/token.h:67-73 | so does setting the token of a region the user has |
| SlabCrashProof.FireTokenInv | slab/token.h:80-86 | so does clearing it |
| SlabCrashProof.FreeRegionInv | slab/tcache.h:192-223 | so does freeing a region once its cleared token is durable |
| SlabCrashProof.WriteBackInv | slab/desc.h:237-256 | so does a cache line that reaches memory, whether somebody waits for it or not |
| SlabCrashProof.NewPoolInit | slab/slab.h:271-286 | a new pool over memory of any content is a start of such runs |
| SlabMarks.RunsAreUnmarked | slab/desc.h:319-323 | at every moment of every run every run in use reads unmarked in memory, whatever its memory held before it was constructed, so a reboot finds only the marks that the close before it made |
| SlabMarks.NewPoolMarks | slab/slab.h:271-286 | a new pool over memory of any content is a start of such runs |
| SlabMarks.NextMarks | slab/desc.h:319-323 | every step keeps the marks in memory what the runs' metadata says |
| SlabCrashProof.CrashAnywhere | slab/run.h:185-203 | at every moment of every run, whatever a crash leaves of bitmaps, metadata and tokens is an image the rebuild accepts; each bitmap in it is the current one or the one before the bit operation in flight; a region the user has with a durable token is published as the token says, and no region that is free or cached is published |
| SlabCrashProof.CrashAndRecover | slab/slab.h:353-392 | a crash at any moment and the rebuild: the allocator is in order, the rebuilder gets each durably published region once and nothing that was free, and exactly what it got is handed out; bitmaps, metadata and tokens of the runs in use are what the crash left |
| SlabCrashProof.RestartInit | slab/slab.h:353-392 | the rebuilt allocator over what the crash left of memory, with marks cleared or being cleared, is a start of runs again |
| SlabCrashProof.EverySession | slab/slab.h:353-392 | over any number of sessions, each ending in a crash and followed by the rebuild, every session is such a run, so every crash in every session leaves an image the rebuild accepts |
| SlabRecover.BusyRegions | slab/slab.h:148-154 | the token loop lists exactly the busy regions of a run, in order |
| SlabRecover.RecoverInv | slab/slab.h:127-159 | the rebuilt bins satisfy every bin and ownership invariant, and exactly the published regions are handed out |
| SlabRecover.RecoverExtent | slab/slab.h:127-223 | one extent's rebuild: its run bin, its half-used runs' arena bins, its marks and its visits |
| SlabRecover.Recover | slab/slab.h:353-392 | after a crash the rebuilder is given exactly the published regions, each once, and the allocator ends in order with exactly these handed out |
| SlabRecoverRace.LoadInv | slab/slab.h:127-131 | loading an extent beside other threads' scans and releases keeps the invariant of the rebuild |
| SlabRecoverRace.WakeInv | slab/slab.h:137-155 | so does reloading a run and listing its busy regions |
| SlabRecoverRace.ReleaseInv | store/hash-store.h:273-291 | so does the rebuilder's release of a region it has visited |
| SlabRecoverRace.SpillKeeps | slab/tcache.h:49-85 | so does a spill during the scan, with the run and the extent possibly released |
| SlabRecoverRace.ScanGoesOn | slab/slab.h:362-383 | until it is complete the scan can go on, whatever was released |
| SlabRecoverRace.RebuildWithReleases | slab/slab.h:353-392 | with any number of scanning threads and releases in between: the allocator rebuilt so far is always in order, only published regions are visited and none twice; at the end every published region was visited and exactly those not released are the user's |
| SlabAllocator.Allocator.Close | slab/slab.h:288-294 | the destruction order leaves the pool closed in that sense, after draining every cache |
| SlabAllocator.Allocator.Reboot | slab/slab.h:315-334 | the reboot loops yield a pool that satisfies the invariant and hands out exactly the surviving regions |
| SlabAllocator.Allocator.CloseAndReboot | slab/slab.h:288-334 | close and reboot keep of the user's regions exactly the published ones and those in runs the user had entirely |

## Left out

- Files, mmap, page pre-allocation, physical reclaim, NUMA pinning, logging, statistics, timers and `tomb_size_`: no effect on the properties.
- `VerLock`, `Epoch`, the SIMD compare, dense pointers and the hash function: assumed to behave as a version lock, as a guard against reuse while readers hold a record, and as their plain definitions.
- String keys (`store/kv-type.h:58-95`): they would repeat the record protocol with one more region.
- A crash inside an orderly close and retirements still pending at close: close is modelled as completing with an empty epoch.
- Allocation while the allocator recovers: only bin 0 of each pair of bins exists.
- Large regions above the run bitmaps (`slab/run.h:304-425`): `LargeBin` is an arena bin over extents and would add no new property.
- The parallel reload of the index: sequential, in arbitrary order of segments.
- The booleans that upsert, update and remove return: what the index answered decides them and is the subject of HashTable and SplitRaceProof.
- Records above 64KB in the limbo lists, and segment depths of 64 and more.
- RecordWrite.WriteKeepsShape: stores of one thread to one record reach memory in program order; the release ordering of `invalidate` is taken for that.
- Recovery.Rebuild: one callback at a time; the callbacks of parallel scan threads meet only in the index, whose upserts are atomic by SplitRaceProof, and in the version table, where each raises a maximum.
- Durability.DurabilityOverRuns: states what holds for all runs, that is no older, not the same operation, because of the stale counter after recovery; the strict form is AcknowledgedIsRecovered.
- ExtentMeta.MetaHead.Acquire: a fence is modelled where the source has one and completes all lines written back before it; the order of write-backs between two fences is left open.
- HashTable.HashTable.Upsert: the table holds its buckets as values, each proved equal to the in-place bucket of HashBucket; aliasing between segments is expressed by names in the directory; under the locks that cover both, the directory is doubled before the segment is split rather than after.
- HashBucket.HashBucket.Insert: runs under the bucket's lock; the races with updates and splits are the subject of SplitRaceProof.
- SplitRaceProof.Linearizable: when a segment is to be split, the three reads of its directory entry under the segment's lock are one; a later read could only name a deeper segment, which fails the depth test.
- SlabRecover.Recover: one thread, and the rebuilder releases nothing before the end; with several threads and releases in between it is SlabRecoverRace.RebuildWithReleases, on values.
- SlabRecoverRace.RebuildWithReleases: a loaded run that waits for its turn counts as unmarked; its mark is read only by a reboot.
- SlabCrashProof.CrashAnywhere: a crash keeps, of each location on its own, its durable value or one stored since, which is more than cache lines allow; the extent's own commit is the subject of ExtentMeta.
- RunBin.RunBin.Acquire: that the metadata is durable before the bit is the subject of SlabCrashProof; the bin refers to bitmaps as sets of runs, which ExtentDesc proves the words and bytes to be; descriptors are not shared objects.
- RunBits.RunBits.FillRegions: a 64-bit word is the set of its ones; shifts and masks are set operations.
- SlabAllocator.Allocator.Acquire: one operation at a time over the whole hierarchy, with the extents to come as a parameter; interleaving is the subject of SlabHeapProof. RunBits and RunBin appear as the sets and shelves they are proved to be.
