# A verified model of the raid_km storage engine

This Dafny project models four parts of raid_km, an md personality with k data and m parity members, and proves what tests can only sample. Paths below are those of the repository.

**Native snapshots** (`km/raid_km-snapmeta.c`, `km/raid_km-snap.c`). An origin map L to P, a chain of read-only snapshots with exceptions, one reverse map and a used bitmap (`SnapState`, `SnapWalk`, `SnapDerive`; what the checks of a load let through, `SnapAccept`; kept in place by the class `SnapMaps.Maps`). The region of a member is a set of sealed pages of which a power cut leaves, page by page, the flushed one, any written since, or a torn one (`SnapRegion`). On it stand the journal's bytes (`JournalCodec`), loading as specification and as loops (`SnapLoad`, `SnapLoader`), shadow-paged checkpoints and journal commits cut at any point (`SnapCheckpoint`, `SnapCommit`), runs over several members with losses and power cuts (`SnapRun`), which members a recovery needs (`SnapHolders`, `SnapSplit`, `SnapFound`), and the commit worker that sends these writes (`SnapMeta.Worker`). The copy-on-write protocol is a machine over rows with contents (`SnapCow`, `SnapIsolation`, `SnapFrozen`, `SnapHistory`), and every write is followed through it (`SnapWrites`); `SnapJoin` runs it on the members' regions, so that after a power cut the maps are what a load built from their bytes, and `SnapLost` what is lost with a replayed record. `SnapEngine` and `SnapMerge` are the code's own steps of the machine, in place.

**Declustered parity** (`km/raid_km_dcl.h`, `km/raid_km-dcl.c`). Shuffled and rotated rows (`DclGeometry`, `DclBalance`), chained spare redirects under their marks and their inverse walk (`DclChain`), the population window (`DclWindow`), the journal block and its election among members (`DclJournal`, `DclElection`), and rows resolved by what a block restores (`DclRestored`).

**Row state map** (`km/raid_km-rowmap.c`). The epoch, need and durable protocol over members and power cuts (`RowMap`), what a power cut that splits a page leads to (`RowSplit`), what state W may be trusted for (`RowTrust`), and the packed bytes with the code's loops, which are runs of both machines (`RowStore.Store`).

**Partial parity log** (`km/raid_km-ppl.c`). Slots and sectors (`PplGeometry`), appending (`PplLog`), recovery (`PplRecover`), and what the two mean together (`PplDecode`, `PplRows`, `PplClosed`, `PplHole`, `PplUnit`), also where the log itself is torn (`PplTorn`).

Where the code changes things in place the model is a class or a method with the same loops, proved against a function; the theorems are about those functions and about machines whose steps they are.

## What holds only under a condition

Each of these is a property the design reads as unconditional; the model gives the input that breaks it and, but for the last one, the exact condition.

- A checkpoint header that a power cut leaves on one member only is elected by the next load. If that member is lost while the next checkpoint is being written, the others cannot load (`SnapSplit.SplitHeader`). The members that come back recover from every power cut exactly when one of them keeps the newest header (`SnapSplit.SurvivorsExactly`, over all runs whose earlier power cuts left it on some member `SnapSplit.EveryRunExactly`), so any single member is enough exactly when all keep it (`SnapSplit.AllHoldExactly`). A run that never loses the last such member needs no condition at all, be it one member or every member back at each power cut (`SnapHolders.HoldingRecovers`); a completed checkpoint puts the header on every member (`SnapHolders.DoneHolds`).
- A record that only one member has when a load replays it is on no other until the worker settles, which it does before it writes the next record and not before. That member lost, a second power cut loads without a record the array was already running on (`SnapFound.SplitRecord`). Every load finds what an earlier one replayed exactly when each such record is on a member that comes back (`SnapFound.FoundExactly`). Snapshot isolation on the members' bytes has this as its condition (`SnapJoin.JointIsolates`; `SnapLost.SnapshotChanges` is a run without it that changes a snapshot) and none where no member is lost (`SnapJoin.SnapshotsSurvive`).
- A row a write was let through to may load as unused after two power cuts. One run loses a member in between (`RowSplit.SplitPage`). The other loses none: a page's write reaches one member, the load takes it and the row is let through at once, and the next write of the same page tears on that member, so that the older copy of the other one wins (`RowSplit.TornRewrite`). Members are written one after the other, a damaged copy is ignored where a good one exists, and nothing writes the pages again after a load. Exactly when given survivors remember a row: `RowSplit.EveryRunExactly`; exactly when any do: `RowSplit.AnySurvivorsExactly`; all members back: `RowSplit.AllBackExactly`. It never happens in runs whose power cuts leave no page split (`RowSplit.UnsplitRunsRemember`), and a flush of the pages heals one that is (`RowSplit.PageOverMakesCurrent`, `RowSplit.FlushRestores`).
- A declustered journal write that fails is rolled back in core but not on the members that took it: they win elections until a write reaches them, which a population mark need not (`DclElection.FailedExactly`). One that power cuts short leaves later elections steady exactly when all members that come back with a block took it, or none did (`DclElection.CutExactly`). Every member but those that hold such a block restores the assignments in force, in every run (`DclElection.EveryElection`), and a strict write that ends well heals them all (`DclElection.StrictHeals`).
- The append test of the partial parity log does not look at whether a stripe is a full-stripe write. A write of part of every column followed by a full-stripe write shares an entry, and recovery skips its last rows. Recovery is right exactly when stripes that share an entry are of one kind (`PplUnit.RunClosesExactly`, `PplUnit.MixedHappens`).
- A log unit counts as full on equality only. Three parities do not divide 128 KB into stripes, and the partial parity outgrows the entry space; `PplUnit.RoomExactly` says exactly when it cannot.
- The check of an op at replay sees neither whether the newest snapshot already has a copy of the row a redirect names (`SnapAccept.SecondCopy`) nor whether the id of a create is above those of the chain (`SnapAccept.SecondId`). An op that passes keeps the maps inverse exactly when these two hold (`SnapAccept.ValidExactly`, for all the ops of a journal `SnapAccept.ReplayExactly`).
- Derive accepts two rows for the same snapshot and origin row (`SnapAccept.TwoRows`), and cuts an owner to a byte when it looks for the snapshot, so that slot 256 counts as slot 0 (`SnapAccept.WideOwner`). The maps it builds from a reverse map it accepts are inverse exactly when neither is the case (`SnapAccept.AcceptedExactly`); the origin part is a bijection in any case (`SnapDerive.AcceptedOriginIsBijection`).
- The end of a bitmap-limited pass must not promote rows it marked (`RowTrust.LimitedPassProvesNothing`), and it does not.

## Model
| member | source | states |
|---|---|---|
| SnapState.RmapSet | km/raid_km-snapmeta.c:295-309 | setting an entry reads back as that entry and moves no other, although a default entry is not stored |
| SnapState.IndexOf | km/raid_km-snap.c:257-265 | the snapshot found for a slot is the first of the chain in it, and none is found only when there is none |
| SnapState.ApplyCoherent | km/raid_km-snap.c:622-722 | reverse-map coherence: every op of the run-time protocol keeps reverse map, origin map, exceptions, counts and used rows mutually inverse |
| SnapState.CreateAdds | km/raid_km-snap.c:651-662 | a create puts the snapshot asked for, with nothing of its own, at the young end of the chain, and changes no map |
| SnapState.RenameNames | km/raid_km-snap.c:708-720 | a rename changes the name, a set the attributes, of the first snapshot in that slot, and nothing else of any |
| SnapWalk.WalkStable | km/raid_km-snap.c:622-785 | a snapshot reads the same physical row at every origin row before and after any op but its own destroy, also where a destroy hands its exceptions to the next older one |
| SnapWalk.CreatedWalk | km/raid_km-snap.c:651-662 | a new snapshot reads the origin's rows |
| SnapWalk.WalkOwned | km/raid_km-snap.c:735-785 | a row a snapshot reads is owned by a snapshot, or by the origin at a row the newest snapshot shares |
| SnapWalk.RowsConserved | km/raid_km-snap.c:622-702 | O + the exceptions of all snapshots + the free rows = R in every coherent state |
| SnapDerive.DeriveRebuilds | km/raid_km-snapmeta.c:1031-1109 | deriving from the reverse map and the bare chain gives back exactly the origin map, the exceptions and the owned rows |
| SnapDerive.AcceptedOriginIsBijection | km/raid_km-snapmeta.c:1031-1109 | any reverse map derive accepts, not only one this code wrote, gives a total injective origin map onto the rows the origin owns |
| SnapAccept.ValidExactly | km/raid_km-snapmeta.c:1112-1128 | an op the replay check lets through keeps the maps mutually inverse exactly when the row it redirects is shared with the newest snapshot, or the id it creates is above those of the chain |
| SnapAccept.ReplayExactly | km/raid_km-snapmeta.c:1130-1175 | for the ops of any journal that replay takes: every op keeps the maps inverse exactly when each is right where it is applied |
| SnapAccept.SecondCopy | km/raid_km-snapmeta.c:1112-1128 | an op that passes: a redirect of a row the snapshot has its copy of; the maps are then not inverse |
| SnapAccept.SecondId | km/raid_km-snapmeta.c:1112-1128 | an op that passes: a create with an id that is taken |
| SnapAccept.AcceptedExactly | km/raid_km-snapmeta.c:1031-1109 | the maps derive builds from any reverse map it accepts are mutually inverse exactly when every snapshot owner fits a byte and no two rows are one snapshot's copy of one origin row |
| SnapAccept.TwoRows | km/raid_km-snapmeta.c:1031-1109 | a reverse map that derive accepts: two rows for one snapshot and origin row |
| SnapAccept.WideOwner | km/raid_km-snapmeta.c:1031-1109 | a reverse map that derive accepts: the owner of slot 256, whose row becomes slot 0's |
| SnapAccept.LoadTakes | km/raid_km-snapmeta.c:847-1229 | a load that succeeds goes by the newest header of all members and both places; that header is mdadm's, or one for just this many rows and pages; the journal ends where no member has the next record, so that one that does not apply fails the load |
| SnapAccept.RmapInRange | km/raid_km-snapmeta.c:942-996 | a reverse map that is loaded names rows of the array only |
| SnapDerive.ReserveCoherent | km/raid_km-snap.c:216-227 | what a COW reserves changes nothing but the used rows |
| SnapMaps.Maps.StoreOwner | km/raid_km-snapmeta.c:295-309 | the stored entry, and the page marked for the next checkpoint |
| SnapMaps.Maps.TakeLeaf | km/raid_km-snapmeta.c:1002-1024 | a new leaf of the sparse origin map changes no origin row |
| SnapMaps.Maps.SetOrigin | km/raid_km_snap.h:252-257 | one origin row changes in the leaf that holds it and no other does |
| SnapMaps.Maps.AllocRow | km/raid_km-snap.c:216-227 | a free row is found whenever there is one: the first from the cursor on, else the first of all, and it is taken |
| SnapMaps.Maps.ApplyOp | km/raid_km-snap.c:622-722 | the maps, bitmaps and counters changed in place are those the op stands for; dirty pages are exactly the ones it changed |
| SnapMaps.Maps.RedirectRow | km/raid_km-snap.c:632-649 | old row to the newest snapshot, new row to the origin, and the count of moved rows kept exact |
| SnapMaps.Maps.DestroySnap | km/raid_km-snap.c:664-706 | the loop over a destroyed snapshot's exceptions hands each to the next older snapshot or frees its row |
| SnapMaps.Maps.Rebuild | km/raid_km-snapmeta.c:1031-1109 | the walk over the reverse map builds what Derive says and fails exactly when Derive does |
| SnapMaps.Maps.CountMoved | km/raid_km-snapmeta.c:1098-1107 | leaf by leaf, the count of origin rows away from home |
| SnapMaps.MovedIsCount | km/raid_km-snapmeta.c:1098-1107 | that count is the number of origin rows whose row is not their own number |
| JournalCodec.GetPut | km/raid_km-snapmeta.c:325-432 | parsing an op that was put, whatever follows it, gives the op back and takes exactly its bytes, which are as many as the size function says |
| JournalCodec.ParsePut | km/raid_km-snapmeta.c:1147-1167 | the bytes of a list of ops parse to that list, all and in order |
| JournalCodec.RecordRoundTrip | km/raid_km-snapmeta.c:684-724 | replay reads from a record's page, zeroes behind it included, exactly the ops the commit packed |
| JournalCodec.GetTakes | km/raid_km-snapmeta.c:363-432 | whatever the bytes, an op the parser takes is one that could have been put, with a slot, numbers and texts that fit; fixed-size ones were put as they are |
| JournalCodec.FitsPage | km/raid_km_snap.h:42-107 | ops are within the record limit exactly when header, ops and seal fit a page |
| JournalCodec.KeptAt | km/raid_km-snapmeta.c:684-724 | the ops of a batch that are packed are all of it but the COWs whose data write failed, each in its place |
| JournalCodec.Pack | km/raid_km-snapmeta.c:684-724 | records in batch order, each within the record limit, none with room for the op after it; the ops that no longer fit come back in order, and nothing is lost |
| SnapRegion.LayoutDisjoint | km/raid_km-snapmeta.c:62-88 | no two pages of the region overlap and all fit in it |
| SnapRegion.GetFinds | km/raid_km-snapmeta.c:224-267 | the page read was on some member, is the newest wanted copy of all, and is found whenever some member has one |
| SnapRegion.GetNothing | km/raid_km-snapmeta.c:224-267 | a page counts as never written exactly when it is so on every member |
| SnapRegion.ImageBeforeWrite | km/raid_km-snapmeta.c:144-196 | a power cut after a write leaves what one before it could leave but for the page written, which is whole, old or torn |
| SnapLoader.GetPage | km/raid_km-snapmeta.c:224-267 | the loop over the members, with its early exit, finds what the specification finds |
| SnapLoader.GetHeader | km/raid_km-snapmeta.c:847-893 | the newer of the two header copies over all members, re-read and checked |
| SnapLoader.Insert | km/raid_km-snapmeta.c:930-934 | a snapshot goes in before the first younger one |
| SnapLoader.GetTable | km/raid_km-snapmeta.c:895-940 | the chain of the table's pages, or failure exactly when a page is missing |
| SnapLoader.GetPmap | km/raid_km-snapmeta.c:949-961 | the page map of the checkpoint, or failure exactly when a page is missing |
| SnapLoader.GetRmap | km/raid_km-snapmeta.c:962-993 | each touched page from the slot the page map names, the newest copy no later than the checkpoint |
| SnapLoader.CheckOp | km/raid_km-snapmeta.c:1112-1128 | the check before an op is applied, on the maps as they stand |
| SnapLoader.Replay | km/raid_km-snapmeta.c:1130-1175 | records applied op by op from the tail on until one is missing; it ends, and fails exactly when an op does not apply |
| SnapLoader.LoadRegion | km/raid_km-snapmeta.c:1177-1229 | the maps and counters in core are those the specification loads, and the load fails exactly when the specification does |
| SnapReplay.ChainRestored | km/raid_km-snapmeta.c:895-940 | the table gives the chain back, oldest first |
| SnapReplay.ReplaysOps | km/raid_km-snapmeta.c:1112-1175 | ops the protocol wrote all pass the replay check and rebuild the state, with every changed page marked |
| SnapReplay.Replays | km/raid_km-snapmeta.c:1130-1175 | replay applies exactly the records that are there, in order, up to the first that no member has |
| SnapRecover.LoadRecovers | km/raid_km-snapmeta.c:1177-1229 | a load from any members whose regions hold the history, one with its newest header, succeeds, loses nothing acknowledged and invents nothing |
| SnapRecover.CutStored | km/raid_km-snapmeta.c:1130-1175 | once the first missing record is known missing everywhere, the regions hold the shorter history |
| SnapCheckpoint.CheckpointCrash | km/raid_km-snapmeta.c:479-599 | shadow paging: a power cut after any prefix of the writes of checkpoint c+1 finds c complete, or c+1 once its header has landed; before the header always c |
| SnapCheckpoint.CheckpointDone | km/raid_km-snapmeta.c:568-593 | a checkpoint that completes is the newest one on every member |
| SnapCheckpoint.OldHeaderStays | km/raid_km-snapmeta.c:568-587 | the old header stays where it is throughout the next checkpoint |
| SnapCheckpoint.NextStored | km/raid_km-snapmeta.c:493-566 | the body written and flushed, the next checkpoint is complete but for its header, pages back at all-default included |
| SnapCheckpoint.SeedComplete | km/raid_km-snap.c:1122-1140 | a member that joins with a region that is not this array's has, after a full checkpoint, the new checkpoint complete and durable with its header |
| SnapCommit.ScrubSafe | km/raid_km-snapmeta.c:603-629 | the scrub loses no record at any point |
| SnapCommit.ScrubCleans | km/raid_km-snapmeta.c:603-629 | after the scrub no slot holds a record a later lap could run into |
| SnapCommit.CommitSafe | km/raid_km-snapmeta.c:649-770 | a power cut at any point of a commit leaves every record acknowledged before it and of the new ones none but those of the batch |
| SnapCommit.CommitDone | km/raid_km-snapmeta.c:726-766 | a commit that completes keeps its records on every member |
| SnapRun.FirstLoad | km/raid_km-snapmeta.c:1177-1229 | the first load of a new array succeeds, for every share of snapshot rows mdadm may set and any members, with the identity maps, the most origin rows that leave that share, and an empty journal |
| SnapRun.MadeInv | km/raid_km-snapmeta.c:1177-1229 | what the first load gives satisfies the invariant that all runs keep |
| SnapRun.CutRecovers | km/raid_km-snapmeta.c:479-770 | whatever commit or checkpoint was under way, a load from members one of which has the newest header succeeds with the state of a prefix of the records in commit order that holds every acknowledged one |
| SnapRun.EveryRun | km/raid_km-snapmeta.c:479-1229 | crash recovery over whole runs: through any number of commits, checkpoints, scrubs, member losses and power cuts the state equals all records applied in commit order, and from every state a power cut that leaves the newest header on some member recovers |
| SnapRun.AcknowledgedStays | km/raid_km-snapmeta.c:726-766 | a record once acknowledged stays in the history, in its place, through every later run |
| SnapHolders.HolderCuts | km/raid_km-snapmeta.c:847-893 | a member with the newest header among those that come back is all a recovery needs |
| SnapHolders.CutHolds | km/raid_km-snapmeta.c:847-1229 | the load after a power cut leaves such a member: the one whose header it took |
| SnapHolders.DoneHeld | km/raid_km-snapmeta.c:479-770 | a completed act leaves its members holding the newest header, and a completed checkpoint makes every member hold it |
| SnapHolders.HoldingRecovers | km/raid_km-snapmeta.c:479-1229 | from creation on, in every run that does not lose the last member with the newest header, and so in every run that loses none, a power cut at any point recovers; nothing is taken for granted of what it leaves |
| SnapHolders.AnyMemberSuffices | km/raid_km-snapmeta.c:209-267 | while every member holds the newest header any one of them is enough to recover |
| SnapHolders.DoneHolds | km/raid_km-snapmeta.c:568-593 | completed acts keep that, and a completed checkpoint brings it about |
| SnapSplit.SurvivorsExactly | km/raid_km-snapmeta.c:847-1229 | the members that come back recover from every power cut exactly when one of them keeps the newest header |
| SnapSplit.AllHoldExactly | km/raid_km-snapmeta.c:847-1229 | every single member is enough exactly when all keep the newest header |
| SnapSplit.EveryRunExactly | km/raid_km-snapmeta.c:479-1229 | in every run of an array whose own power cuts left the newest header on some member: the members that come back recover from whatever the next cut leaves exactly when one of them keeps that header |
| SnapSplit.SplitHeader | km/raid_km-snapmeta.c:847-893 | a power cut that lands a header on one member only, one more checkpoint under way, and the loss of that member leave a region no load accepts |
| SnapFound.HeldFound | km/raid_km-snapmeta.c:1130-1229 | with each record an earlier load replayed on a member that comes back, no load finds less |
| SnapFound.FoundExactly | km/raid_km-snapmeta.c:632-646 | what an earlier load replayed is found again by every load, whatever a power cut leaves, exactly when each such record is on a member that comes back |
| SnapFound.SplitRecord | km/raid_km-snapmeta.c:632-770 | a record left on one member by a power cut is replayed, and with that member lost the next load does without it |
| SnapMeta.Worker.Put | km/raid_km-snapmeta.c:144-212 | a request is done when some member took it; otherwise its pages may have reached any of them, unforced |
| SnapMeta.Worker.WriteRmap | km/raid_km-snapmeta.c:493-525 | every changed page of the reverse map into its other slot, neighbours in one request, and the page map flipped with it |
| SnapMeta.Worker.WritePmap | km/raid_km-snapmeta.c:529-544 | the whole page map into the checkpoint's copy |
| SnapMeta.Worker.FillTable | km/raid_km-snapmeta.c:545-562 | the table pages built in the buffer are those of the chain |
| SnapMeta.Worker.Checkpoint | km/raid_km-snapmeta.c:479-599 | completed: all events of the checkpoint sent and counters, page map and dirty pages moved; failed: a part of the events sent, the maps and the checkpoint number as they were, and the metadata marked broken |
| SnapMeta.Worker.Settle | km/raid_km-snapmeta.c:614-646 | what a load replayed goes into a checkpoint before the ring is scrubbed |
| SnapMeta.Worker.SendRecords | km/raid_km-snapmeta.c:649-661 | records forced into the ring from its head, in two requests where it wraps, behind a flush where one depends on data |
| SnapMeta.Worker.ApplyOps | km/raid_km-snapmeta.c:761-766 | the records' ops applied in order once they are durable |
| SnapMeta.Worker.Round | km/raid_km-snapmeta.c:663-770 | one round: what fits into records is sent and applied or failed, the rest goes back in front of what arrived meanwhile, in order; where one of them is a COW or a create, every record sent comes after a flush of the members |
| SnapMeta.OutcomeAt | km/raid_km-snapmeta.c:684-766 | each op of a batch ends once: those dropped with their one outcome, the others with theirs, in order |
| SnapMeta.WentReaches | km/raid_km-snapmeta.c:479-770 | whatever the worker sent is some acts of a run, so the run theorems say what a load finds after any power cut |
| SnapPrivate.ReadNotPrivate | km/raid_km-snap.c:735-785 | what a snapshot reads is never a private row |
| SnapPrivate.PrivateStays | km/raid_km-snap.c:622-722 | an op keeps private rows private; a create only those nobody owns |
| SnapPrivate.BatchApplies | km/raid_km-snapmeta.c:663-752 | a batch whose ops were each right when they were queued applies, in any prefix |
| SnapPrivate.BatchFollows | km/raid_km-snapmeta.c:663-752 | no batch changes what a snapshot reads that is there before and after it |
| SnapFrozen.StepKeeps | km/raid_km-snap.c:286-612 | every step of the COW machine keeps its invariant: one COW a row at most, redirects that find their row as they left it, rows in flight that no snapshot reads |
| SnapFrozen.InDoubtOk | km/raid_km-snapmeta.c:742-766 | what may be in the journal beyond what was acknowledged applies, in any prefix |
| SnapHistory.StepIsolates | km/raid_km-snap.c:187-702 | snapshot isolation: no step, be it a write in place, a COW whole or partial, a discard, a create, the destroy of another snapshot, a failed commit or a power cut, changes what a snapshot reads |
| SnapHistory.RunIsolates | km/raid_km-snap.c:187-702 | whatever runs, a snapshot reads at the end of it what it read at its start |
| SnapHistory.SnapshotsNeverChange | km/raid_km-snap.c:187-777 | from its create to any later state in which it exists nothing a snapshot reads has changed |
| SnapHistory.IdStaysGone | km/raid_km-snap.c:1328-1402 | a destroyed snapshot's id does not come back |
| SnapHistory.CreateReadsOrigin | km/raid_km-snap.c:1328-1402 | a new snapshot reads the origin as it is at its create |
| SnapHistory.CommitEnabled | km/raid_km-snap.c:327-364 | when a redirect is applied origin[L] is its old row, the newest snapshot has no copy of L and its new row is unowned; creates and destroys apply with no COW in flight |
| SnapHistory.CommitWrites | km/raid_km-snap.c:327-364 | after a commit the origin row of each COW in it reads, sector by sector, the write in its range and what it did elsewhere; no other row of the origin changes |
| SnapHistory.PlaceWrites | km/raid_km-snap.c:495-612 | an in-place write that ends has put its sectors into the origin's row, and changed no other sector and no other row |
| SnapHistory.CutLeavesWhole | km/raid_km-snap.c:327-364 | after a power cut a flushed origin row reads as it did, or, where its COW was being committed, sector by sector with all of that write |
| SnapHistory.RowsAccounted | km/raid_km-snap.c:216-227 | every physical row is in exactly one of five roles -- the origin's, a snapshot's, free, a COW's in flight, named by a record in doubt -- and their numbers add up to R |
| SnapWrites.StepConserves | km/raid_km-snap.c:286-612 | every write is accounted for at every step: what arrives is in one more place, and what leaves its place has ended or is sent again |
| SnapWrites.RunConserves | km/raid_km-snap.c:286-612 | over any run each arrival of a write has ended, was sent again, or is where the write is now |
| SnapWrites.OnePlace | km/raid_km-snap.c:286-612 | a write sent again only after it was sent is in one place at most: on its way to its row, in a COW, waiting for one, or parked |
| SnapWrites.NoneStranded | km/raid_km-snap.c:286-313 | wherever a write is it moves on: its I/O can complete, its COW can take its next step or is queued for the journal, and parked it has a hold to end or such a COW |
| SnapJoin.LoadIsCut | km/raid_km-snapmeta.c:1130-1229 | what a load makes of the bytes a power cut left is the maps with a prefix of the batch in doubt applied, as the COW machine allows |
| SnapJoin.StepJoins | km/raid_km-snapmeta.c:479-770 | writes, COWs, records, commits, checkpoints, scrubs and power cuts keep the COW machine and the regions in step |
| SnapJoin.JointIsolates | km/raid_km-snapmeta.c:479-1229 | snapshot isolation on the members' bytes: in every run, with member losses, whose loads find what earlier ones replayed |
| SnapLost.SnapshotChanges | km/raid_km-snapmeta.c:632-1229 | without that a snapshot changes: its destroy is replayed from one member, a write takes the freed row, that member is lost, and the next load brings the snapshot back with the write in its row |
| SnapJoin.SnapshotsSurvive | km/raid_km-snapmeta.c:479-1229 | snapshot isolation from the first assembly of an array on, over every run that loses no member, with power cuts at any event and of what they leave nothing taken for granted; the maps are always those of the records in commit order |
| SnapEngine.Engine.BusyFind | km/raid_km-snap.c:246-254 | the slot of the COW in flight for a row |
| SnapEngine.Engine.Allocate | km/raid_km-snap.c:216-227 | a row the machine may pick, or none when there is none |
| SnapEngine.Engine.StartCow | km/raid_km-snap.c:572-607 | a COW of the row starts in a free slot, a whole-row one only with its row |
| SnapEngine.Engine.MapBio | km/raid_km-snap.c:495-612 | a write goes in place exactly where nothing is shared, waits exactly behind a COW, is refused exactly on broken metadata, and is parked exactly when held or out of slots; the whole new state is the COW machine's, and a refused one ends with an error |
| SnapCow.TrimExactly | km/raid_km-snap.c:386-446 | a discard waits behind the COW of its row, goes to the origin's row where nothing is shared, and does nothing to a shared one |
| SnapEngine.Engine.CowFinish | km/raid_km-snap.c:286-313 | slot and, where the COW is undone, its row come free; the write ends; every waiting and every parked write is sent again |
| SnapEngine.Engine.DiscardRun | km/raid_km-snap.c:438-446 | how many rows go the way the first one goes: the run is maximal and uniform |
| SnapMerge.CopyPiece | km/raid_km-snap.c:187-213 | each byte of the buffer in the piece is the piece's, each other byte what it was |
| SnapMerge.Merge | km/raid_km-snap.c:187-213 | byte by byte over all pages of the buffer: the write's bytes, one segment after the other, in its range, and what was there elsewhere |
| SnapMerge.MergeZeroes | km/raid_km-snap.c:187-213 | byte by byte: zero in its range, and what was there elsewhere |
| SnapMerge.ConcatAt | km/raid_km-snap.c:187-213 | byte j of segment i stands behind all segments before it |
| DclGeometry.ShuffleInvertible | km/raid_km_dcl.h:45-56 | any generator output gives a permutation |
| DclGeometry.ShuffleReaches | km/raid_km_dcl.h:43-62 | every permutation is the shuffle of some draws, none is ruled out |
| DclGeometry.GenBasePerm | km/raid_km_dcl.h:45-56 | the in-place shuffle of one table row, a permutation whatever the generator returns |
| DclGeometry.GeomTables | km/raid_km_dcl.h:81-92 | the tables filled in place are inverse to each other, so a geometry of the right sizes with them is valid |
| DclGeometry.RowBijection | km/raid_km_dcl.h:94-110 | every row is a bijection of columns and disks, and dcl_lcol inverts dcl_disk |
| DclGeometry.ForwardInverse | km/raid_km_dcl.h:141-168 | dcl_inverse takes back every data chunk dcl_forward placed, and no two chunks meet |
| DclGeometry.InverseForward | km/raid_km_dcl.h:141-168 | every data column on disk is the place of exactly the chunk dcl_inverse names |
| DclBalance.ExactBalance | km/raid_km_dcl.h:14-22 | over one period every disk holds exactly nbase*ngroups*k data, nbase*ngroups*m parity and nbase*s spare columns |
| DclBalance.ColumnOncePerShuffle | km/raid_km-dcl.c:218-262 | in a period a disk meets every column exactly once under each base shuffle |
| DclChain.ChainsDisjoint | km/raid_km_dcl.h:171-187 | chains of group columns are vertex-disjoint and none meets itself |
| DclChain.HopsBounded | km/raid_km_dcl.h:188-234 | a chain from a group column uses each assignment at most once |
| DclChain.ResolveLive | km/raid_km_dcl.h:188-234 | with every mark open dcl_resolve ends at an unassigned disk within nas hops; the self-loop and fall-through exits are not taken |
| DclChain.Resolve | km/raid_km_dcl.h:200-234 | the loop under marks: alive exactly when every mark on the column's chain covers the row, then at the chain's unassigned end; else dead, at the first disk whose mark does not |
| DclChain.ResolveExactly | km/raid_km_dcl.h:200-234 | the same of the walk as a function, for any assignments and marks |
| DclChain.EndpointsDistinct | km/raid_km_dcl.h:188-234 | different group columns of a row end on different disks |
| DclChain.PoolEndpoints | km/raid_km_dcl.h:141-234 | in every row of every valid geometry, with any disks on any spare columns: two chunks are written to two disks of the pool, neither of them assigned, and with no assignment each where the row map says |
| DclChain.ChainTraverses | km/raid_km_dcl.h:241-275 | the forward loop says yes exactly when the disk is on the write chain of the column, at any number of hops |
| DclChain.ChainRoot | km/raid_km_dcl.h:276-297 | the loop over predecessors finds the one group column whose chain traverses the disk, and -1 exactly when there is none |
| DclChain.RootIsTheTraverser | km/raid_km_dcl.h:241-297 | the inverse walk and the forward walk agree, spare-only cycles included |
| DclChain.ArmMovesOnlyTheRoot | km/raid_km_dcl.h:276-297 | arming an assignment moves the write endpoint of one group column of a row at most, the chain root of the disk |
| DclChain.LiveReadsStay | km/raid_km_dcl.h:188-240 | raising marks keeps every live read where it is |
| DclChain.ReadAgreesWithWrite | km/raid_km_dcl.h:188-240 | a read that resolves live is served where the write map writes |
| DclWindow.Window.PopDone | km/raid_km-dcl.c:944-970 | the circular bitmap and the base are those of the finished granules; an overrun changes nothing |
| DclWindow.Window.Sweep | km/raid_km-dcl.c:958-963 | the loop moves the base over the solid prefix and clears what it passes |
| DclWindow.Window.Room | km/raid_km.c:17409-17420 | the admission test on the exported mark is the one on the base |
| DclWindow.TakenShows | km/raid_km-dcl.c:944-970 | inside the window the base is again the least granule not finished and the bitmap the finished ones past it |
| DclWindow.StepKeeps | km/raid_km.c:17409-17510 | with admission no finished granule lands past the window |
| DclWindow.EveryPass | km/raid_km.c:17425-17510 | in every admitted run, under any completion order, the base is the least unfinished granule, and the sync thread can go on once nothing flies |
| DclWindow.NeverCovers | km/raid_km-dcl.c:944-970 | even where an overrun is dropped the mark does not cover a granule that was not taken |
| DclJournal.VerifyTable | km/raid_km-dcl.c:504-536 | the loops accept a table exactly when its entries are active, in range, distinct and one at most is in flight |
| DclJournal.Verify | km/raid_km-dcl.c:443-538 | a block is accepted exactly when version, geometry and assignments are sound |
| DclJournal.Build | km/raid_km-dcl.c:824-868 | the block's fields and table, filled entry by entry |
| DclJournal.AcceptedRestores | km/raid_km-dcl.c:443-538 | whatever block verify accepts, the assignments restored are of disks of the pool to spare columns, none twice, at most one in flight, which is the pass, with its own mark |
| DclRestored.RestoredResolves | km/raid_km-dcl.c:616-750 | in every row, by the assignments of any accepted block: writes of two chunks go to two unassigned disks, and reads resolve as ResolveExactly says |
| DclJournal.BuiltAccepted | km/raid_km-dcl.c:443-538 | verify accepts every block build produces |
| DclJournal.RoundTrip | km/raid_km-dcl.c:712-750 | loading what was built restores the same assignments, pass, generation and journalled mark, in either version |
| DclJournal.Load | km/raid_km-dcl.c:616-750 | the loop over the members finds a valid block of the highest generation, or fails exactly when no member has one |
| DclElection.FreeSpare | km/raid_km.c:20033-20040 | the search for a spare column finds the first unused one, and finds one whenever fewer assignments than columns are active |
| DclElection.LoadElects | km/raid_km-dcl.c:616-750 | the load's winner is the election's winner |
| DclElection.ChangesAre | km/raid_km-dcl.c:892-927 | arming adds one disk and spare column, a copy and a completion keep all, the end of a copy takes away its own and no other, retiring takes all away |
| DclElection.PassBegins | km/raid_km.c:20033-20063 | a pass that is armed begins at row 0, in core and in the block of every live member |
| DclElection.StepKeeps | km/raid_km-dcl.c:892-927 | arm, copy, complete, retire, checkpoint, member loss, restart, and strict writes that fail or are cut short, keep every member's block an older record of the assignments in force, but for the blocks such a write left behind, of which account is kept |
| DclElection.EveryElection | km/raid_km-dcl.c:870-927 | from a new array on, after any run, failed and cut strict writes included, whoever of any surviving members is elected restores the assignments in force, with a mark no further than the runtime one, unless its block is one that such a write left behind and no write has reached it since |
| DclElection.StrictHeals | km/raid_km-dcl.c:878-927 | a write that every live member takes puts all of them right again, whatever state it finds |
| DclElection.CalmElections | km/raid_km-dcl.c:870-927 | from a new array, or from any strict write that ends well after whatever run, on: while no strict write fails and of one cut short all or none of the members have it, every election restores the assignments in force |
| DclElection.FailedExactly | km/raid_km-dcl.c:870-927 | after a strict write that failed members elect the assignments in force exactly when none of them took the failed block |
| DclElection.CutExactly | km/raid_km-dcl.c:870-927 | after power goes inside a strict write and a restart, every later election keeps to one set of assignments exactly when all members that came back with a block took the new one or none did |
| RowMap.StepSound | km/raid_km-rowmap.c:179-428 | every step, any power cut included, keeps what loads and flushes rely on |
| RowMap.StepKeeps | km/raid_km-rowmap.c:179-428 | every step keeps the promise that a row let through is never forgotten, where a power cut leaves the newest copies |
| RowMap.ReleasedIsSafe | km/raid_km-rowmap.c:413-428 | the gate on durable and need holds back every row a crash could forget |
| RowMap.WetLoadsUsed | km/raid_km-rowmap.c:179-234 | at a power cut that leaves the newest copies a row let through loads as in use, through failed flushes, notes and discards during a flush, torn and damaged pages |
| RowMap.EveryCutRemembers | km/raid_km-rowmap.c:179-769 | from creation on, at every power cut that leaves the newest copies, every row let through since its last discard loads as in use |
| RowSplit.SurvivorsExactly | km/raid_km-rowmap.c:696-769 | a row is remembered by every power cut with these survivors exactly when no copy without it may win among them and not all of them may lack the page |
| RowSplit.EveryRunExactly | km/raid_km-rowmap.c:136-769 | that in every run, whatever its power cuts left |
| RowSplit.AnySurvivorsExactly | km/raid_km-rowmap.c:696-769 | any survivors remember a row exactly when every copy of its page that a member may be left with has the row or is damaged |
| RowSplit.AllBackExactly | km/raid_km-rowmap.c:696-769 | with every member back, of all rows let through: exactly when no copy without one of them may win and no page may be missing everywhere |
| RowSplit.UnsplitRunsRemember | km/raid_km-rowmap.c:179-769 | from creation on, through power cuts that leave no page split, every row let through is remembered by every power cut and any survivors |
| RowSplit.AnyMemberSuffices | km/raid_km-rowmap.c:696-769 | while every copy is the newest or damaged any member is enough |
| RowSplit.CurrentKept | km/raid_km-rowmap.c:136-234 | every step short of a power cut keeps a page current |
| RowSplit.PageOverMakesCurrent | km/raid_km-rowmap.c:136-234 | a completed write of a page makes all its copies current, whatever they were |
| RowSplit.FlushRestores | km/raid_km-rowmap.c:179-234 | so a flush of every page that counts heals whatever the last power cut split |
| RowSplit.SplitPage | km/raid_km-rowmap.c:696-769 | a page's write left on one member by a power cut is taken at load with no wait for the others: that member lost, the row loads as unused |
| RowSplit.TornRewrite | km/raid_km-rowmap.c:136-769 | and with no member lost: the next write of the split page tears on the member that had it, and the row loads as unused |
| RowTrust.WrittenIsConsistent | km/raid_km-rowmap.c:253-692 | state W is trustworthy: in every crash-free run, with no whole-stripe write in flight, every stripe of a written row matches its parity; a row reported written whole is one whose every stripe was written since it was last unused |
| RowTrust.EndStates | km/raid_km-rowmap.c:662-692 | a whole uninterrupted pass makes exactly the rows it marked written; a limited one gives them back, any other leaves them |
| RowTrust.SkipsRun | km/raid_km-rowmap.c:579-634 | a scan that passes n unused rows is n skips of the machine |
| RowTrust.LimitedPassProvesNothing | km/raid_km-rowmap.c:662-692 | a bitmap-limited pass may end with a marked row that does not match, so its end must not promote it |
| RowStore.Store.Get | km/raid_km-rowmap.c:37-48 | the two bits of a row in the packed bytes |
| RowStore.Store.Set | km/raid_km-rowmap.c:56-63 | one row changes and its page is dirty, no other row does |
| RowStore.Store.NoteWrite | km/raid_km-rowmap.c:253-312 | for any write, also an empty one or one past the last row: a row it touches is written if it was or if all its sectors are in the write, else in need of a sync if it was unused, else as it was; no other row changes; a page is dirty once a row of it changed, and its need moves exactly when a row of it left unused, which is also when the write must wait |
| RowStore.WholeExactly | km/raid_km-rowmap.c:296-299 | the two comparisons say that all sectors of the row are in the write |
| RowStore.NotesAreActs | km/raid_km-rowmap.c:295-312 | what a write notes of its rows is what it does to them on RowTrust's machine, which WrittenIsConsistent is about |
| RowStore.Store.NoteRowWritten | km/raid_km-rowmap.c:314-337 | a row in use becomes written, an unused one does not; an act of RowTrust's machine |
| RowStore.Store.ForceRcw | km/raid_km-rowmap.c:370-380 | parity is made anew exactly where the row is in the map and not written |
| RowStore.Store.NoteDiscard | km/raid_km-rowmap.c:345-368 | every row of the range inside the map is unused afterwards, no other row changes, and a page is dirty once a row of it changed |
| RowStore.Store.Convert | km/raid_km-rowmap.c:435-465 | every row in one state becomes another, counted, and the dirty pages are theirs |
| RowStore.Store.SkipRun | km/raid_km-rowmap.c:579-634 | a resync, repair or recovery passes unused rows and no others, a check passes all rows not written; the run is the longest such one within its limit |
| RowStore.Store.ScanRows | km/raid_km-rowmap.c:612-633 | the sectors said to need no pass lie in rows passed; the scan ends at the first other row, the end of the pass or of the map, or its bound |
| RowStore.Store.SyncSkip | km/raid_km-rowmap.c:579-634 | at its start a pass that may write marks exactly the rows in need of a sync; one with too many members gone will promote nothing; and all of it, with a skip for each row passed, is a run of RowTrust's machine |
| RowStore.Store.PassEnd | km/raid_km-rowmap.c:661-692 | exactly the marked rows of a whole uninterrupted pass become written, or are given back where a bitmap let it skip; an act of RowTrust's machine |
| RowStore.Store.Load | km/raid_km-rowmap.c:696-769 | each page from the newest good copy of the members, in need of a sync where one is damaged and none good, and the generation past every copy's |
| RowStore.FlushedLoads | km/raid_km-rowmap.c:136-769 | what a flush wrote to all members is what a load of any of them reads |
| RowStore.Store.WritePage | km/raid_km-rowmap.c:136-167 | the page on its way to each member in turn, a run of the machine: every member left has taken it, one that failed it is out |
| RowStore.Store.Flush | km/raid_km-rowmap.c:179-234 | a run of the machine from the start of a flush to its end. Done: every page changed before it is on every member left, as it now is, and durable has moved; not done: some page reached no member |
| RowStore.Store.WaitRow | km/raid_km-rowmap.c:413-428 | it ends, and when it returns the machine lets the row's member writes go out; a row past the map is let through at once |
| PplGeometry.ParityRotates | km/raid_km.c:6983-7003 | of as many rows on end as there are members each member holds the first parity of exactly one |
| PplGeometry.DataSlotIndex | km/raid_km.h:1408-1418 | data index and data slot are inverse, and no data slot is a parity slot |
| PplGeometry.SlotOfMatrixRow | km/raid_km.h:1403-1447 | every slot of a row is one data column or one parity, and the matrix row names which |
| PplGeometry.ShiftDivides | km/raid_km-ppl.c:363-372 | shifting by the logarithm divides by a power-of-two chunk |
| PplGeometry.LocateColumn | km/raid_km.c:6892-7004 | the sector map puts a column of a row where the slot map says, in the fixed and the rotating layout |
| PplLog.AppendsExactly | km/raid_km-ppl.c:355-374 | the append test passes exactly when the stripe is the next row of the last entry's matrix |
| PplLog.LoggedKeeps | km/raid_km-ppl.c:304-409 | an appended stripe keeps every entry a matrix of consecutive pages over one range of columns |
| PplLog.Log.DataRange | km/raid_km-ppl.c:336-348 | the loop over the slots finds the first data sector and the number of modified disks |
| PplLog.Log.Extend | km/raid_km-ppl.c:383-402 | the entry grows by one row and its m partial parity pages, none for a full-stripe write |
| PplLog.Log.LogStripe | km/raid_km-ppl.c:304-409 | the stripe goes into the open unit, or into a new one exactly when that is full |
| PplRecover.EncodeOne | km/raid_km-ppl.c:975-1013 | every column has its part in every parity: the others zero, the parity is its own coefficient map |
| PplRecover.GatherReads | km/raid_km-ppl.c:937-970 | what is gathered depends on no block of a member that is missing or not rebuilt that far |
| PplRecover.WrongParityStops | km/raid_km-ppl.c:925-936 | an entry whose parity disk is not its row's fails the sanity check: nothing of it is recovered, and the recovery ends there |
| PplRecover.Members.ReadRow | km/raid_km-ppl.c:937-970 | the data read for one block row, by logical column, stopping at a member that cannot be read |
| PplRecover.Members.RecoverEntry | km/raid_km-ppl.c:852-1014 | every block row of the strip, in order, as the row specification says |
| PplRecover.Members.WriteRow | km/raid_km-ppl.c:975-1013 | all m parities of a row at their slots, skipping missing members |
| PplRecover.Members.Recover | km/raid_km-ppl.c:1209-1283 | the entries in order, those whose checksum fails skipped, each at its place in the log |
| PplDecode.DecodesExactly | km/raid_km-ppl.c:892-914 | recovery decodes the matrix that was logged exactly when the entry is all full-stripe writes or has none |
| PplRows.GatherIs | km/raid_km-ppl.c:937-970 | for each block row exactly the modified columns are read |
| PplRows.ParitiesAt | km/raid_km-ppl.c:999-1013 | parity j lands at its slot and nothing else changes |
| PplClosed.RowDoneIs | km/raid_km-ppl.c:916-1014 | one block row of a uniform entry: every writable parity rebuilt from the data read and the row's own partial parity, or nothing when a modified member is missing |
| PplClosed.EntriesAre | km/raid_km-ppl.c:1209-1283 | recovery of a log of uniform entries changes the members as its rows say, one after the other |
| PplHole.EitherPartialParity | km/raid_km.c:5690-5764 | the partial parity a read-modify-write leaves equals the one a reconstruct-write computes |
| PplHole.WantedIsRight | km/raid_km-ppl.c:764-851 | what recovery writes is the encoding of the data then on the members, whatever the modified columns hold |
| PplHole.HoleClosed | km/raid_km-ppl.c:852-1014 | the write hole is closed: for any subset of the logged writes on disk every logged row whose modified members can be read ends with all its parities right |
| PplHole.OnlyParityWritten | km/raid_km-ppl.c:852-1014 | recovery writes only parity of logged rows whose modified members can all be read |
| PplTorn.TornLogCloses | km/raid_km-ppl.c:1226-1273 | whatever the log holds: the rows of an entry whose partial parity is in the log end with right parities, where all modified members can be read, also behind entries that are not |
| PplTorn.TornEntryStays | km/raid_km-ppl.c:1257-1267 | the rows of an entry whose partial parity is not in the log come through recovery as they were, on every member |
| PplTorn.TornEntrySound | km/raid_km-ppl.c:1257-1267 | so a row whose data writes had not begun keeps good parity |
| PplTorn.OnlyIntactWritten | km/raid_km-ppl.c:1209-1283 | recovery changes only parity of readable rows of entries whose partial parity is in the log |
| PplHole.ClosesExactly | km/raid_km-ppl.c:304-409 | over all torn states of a unit recovery repairs every row exactly when each entry is uniform |
| PplHole.MixedLeavesHole | km/raid_km-ppl.c:892-914 | a mixed entry leaves a stop that recovery does not repair |
| PplUnit.EveryRunOk | km/raid_km-ppl.c:304-409 | whatever stripes are logged, the unit's entries cut them in order into matrices |
| PplUnit.GuardIsExact | km/raid_km-ppl.c:355-402 | a step keeps the entries uniform exactly when a stripe that would join the last entry is of its kind, full or not |
| PplUnit.RunClosesExactly | km/raid_km-ppl.c:304-1014 | over whole runs: recovery repairs every torn state exactly when each stripe that joined an entry was of its kind, a test the source does not make |
| PplUnit.MixedHappens | km/raid_km-ppl.c:355-402 | the mix does happen: a write of part of every column followed by a full-stripe write of the next page makes one entry |
| PplUnit.RoomExactly | km/raid_km-ppl.c:316-322 | the equality test for a full unit bounds the partial parity exactly when the m pages of a stripe divide the entry space or the entries run out first |
| PplUnit.Overruns | km/raid_km-ppl.c:316-322 | otherwise a run of one-page writes steps over the space |

## Left out

- Seals, CRC-32C and header checks of magic, version, identity and row size: a page or block reads back as written, as zeroes, or is rejected.
- SplitMix64 and the search for good seeds: the shuffle's inputs are arbitrary. GF(2^8) tables: parity coefficients are arbitrary linear maps of bytes.
- Fixed-width wrap-around of sector, generation and id counters.
- Allocation failure, log messages, sysfs text, attribute strings and name checks, gendisk handling, module parameters.
- Memory barriers, RCU and lock details: each locked section is one step.
- Splitting and chaining of requests: a write lies within one row, a discard is a run of rows.
- `km/raid_km.c` beyond the sector map, the admission test and the assignment transitions; the reshape, `km/raid_km-reshape.c`, and the dormant journal fork `km/raid_km-cache.c`.
- Members that join a running array, beyond the full checkpoint they receive (SnapCheckpoint.SeedComplete), and members returning after a loss with pages from before it: md keeps the latter out by its event counts.
- Read errors of a member while it is in sync count as a rejected page in the snapshot region and the row map; in partial parity recovery a read error ends the recovery and is not modelled.
- Checkpoints of a read-only array (`km/raid_km-snapmeta.c:490-491`) write nothing and are not modelled.
- RowStore.Store.SyncSkip: for a resync, repair or check; a recovery's scan (`km/raid_km-rowmap.c:615-622`) is SkipRun with a smaller bound, and the lists of skipped rows it keeps (`km/raid_km-rowmap.c:494-511`) are left out.
- RowStore.Store.Load: good copies of one page and generation are the same copy, as RowMap.StepSound keeps them.
- SnapLoader.GetTable: reads all table pages before it builds the chain, where the code inserts as it reads; the chain is the same because slots come in order.
- PplRecover.Members.RecoverEntry: recovery of entries of block sizes between 512 bytes and a page is in the model but not in the theorems. A log block is 512 bytes for native metadata; the theorems cover that and 4096.
- PplHole.HoleClosed: stripes of one unit are distinct, because a stripe is not logged again before its write ends (`km/raid_km-ppl.c:417-423`), and the modified columns of a stripe are contiguous (`km/raid_km.c:7608-7630`).
- PplTorn.TornLogCloses: entries whose partial parity is in the log are uniform, as PplHole.ClosesExactly says they must be, and the log is as long as the unit's partial parity.
- PplHole.ClosesExactly: stated for an array whose members are all present, where every row is recoverable.
- The choice among several partial parity log headers by generation (`km/raid_km-ppl.c:1318-1430`), the flush of member caches between units, and PPL on the single-parity level.
- DclElection.EveryElection: of a member whose block a failed or cut write left behind it does not say what it restores; DclElection.FailedExactly and DclElection.CutExactly do, for one such write.
- RowMap.EveryCutRemembers: of each page the newest copy that a completed flush relied on comes back, at every power cut of the run; RowSplit.EveryRunExactly has no such condition.
- RowMap.WetLoadsUsed: the same condition on the last power cut; RowSplit.AnySurvivorsExactly says when any members do.
- SnapRun.CutRecovers: a header as new as the last completed checkpoint's is on a member that comes back; SnapSplit.SurvivorsExactly says exactly when it always is.
- SnapRun.EveryRun: the same condition on every power cut of the run; SnapHolders.HoldingRecovers has none for runs that keep a member with that header.
- SnapSplit.EveryRunExactly: the power cuts of the run before the one it speaks of leave the newest header on some member; what a cut that does not leads to is SnapSplit.SplitHeader.
- SnapSplit.SurvivorsExactly: that members without the newest header do not load at all is stated once mdadm's first header is written over; before that they may load, and what they load is an older checkpoint.
- SnapReplay.Replays: for journals the commit path wrote; SnapAccept.ReplayExactly says when the ops of any other leave the maps inverse.
- SnapAccept.AcceptedExactly: entries of the reverse map are within the R rows, as loading makes them, and the snapshot table has distinct slots, and ids in order and below the next one.
- SnapJoin.JointIsolates: no power cut of the run loads without a record that an earlier load replayed; SnapFound.FoundExactly says when that is so, and SnapJoin.SnapshotsSurvive needs no condition where no member is lost.
- A flush of the row map runs to its end in RowStore.Store.Flush; that rows change between its pages is RowMap's machine, of which the flush is shown to be a run.
