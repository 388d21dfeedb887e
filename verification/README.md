# OCache in Dafny

OCache keeps one metadata row per key in an ordered key-value store; the bytes of a
value are inline in the row, in a raw file, or in a segment file. Almost nothing is
locked: puts, deletes, conditional writes, eviction, expiry, two compactors, a deletion
queue and several sweeps run against each other, and what holds the store together is
the order of their steps and the conditions their merges carry. This project models
those steps and proves what they keep, for every input and every pattern of failures, and
for every interleaving except inside the background passes whose lines under "Left out" say
what they take as one step.

Concurrent protocols are step functions over a state (`Storage`, `Stamps`, `Accounting`,
`EvictionIndex`, `OrphanSweep`): an action that is not enabled does nothing, and a run is any
sequence of actions. Objects with fields that are updated in place are classes
(`Memory.MemoryCache`, `Eviction.Cleaner`, `Backfill.Reconciler`,
`DeletionQueue.Deletions`, `TtlSweep.Sweeper`, `TokenRing.TopologyManager`), and loops are
methods with invariants, each tied to a specification about which the laws are proved.
Clocks, failed reads and writes, shutdowns and hashes are parameters. `dafny verify
dfyconfig.toml` checks everything.

| modules | subject |
|---|---|
| `Rows`, `Merge` | rows, operands and the metadata merge operator |
| `Memory`, `CasSpec`, `Stamps` | what a conditional write with fences means, who meets it, and where stamps come from |
| `Storage`, `StorageInvariant`, `StorageWriters`, `StorageBatches`, `StorageMigration`, `StorageSafety`, `StorageTheorems`, `StorageDamage`, `StorageFences`, `StorageReclaim`, `StorageOutcomes` | the storage layer as one machine of interleaving steps |
| `Walker`, `EvictionIndex`, `Eviction`, `Accounting`, `Tally`, `Backfill`, `TtlSweep`, `OrphanSweep`, `DeletionQueue` | the background passes |
| `Order`, `Listing`, `KWayMerge`, `ClusterListing` | listing one node and a cluster |
| `Wire`, `WireText`, `WireExtract`, `WireEncode` | the wire format and its fast readers |
| `TokenRing` | routing |

How the storage proof is built: `StorageInvariant` says what each row promises and what
each thread relies on between two of its steps, and shows that a step of another thread
that only evolves the state in a certain way (`Evolves`) leaves all of it intact.
`StorageWriters` and `StorageMigration` show, step by step, that every action evolves the
state that way and leaves its own thread where it should be; `StorageSafety` puts the
steps together and `StorageTheorems` draws the conclusions. `StorageFences` and
`StorageDamage` say exactly where two of the promises end. `StorageReclaim` and
`StorageOutcomes` say what each writer achieves: what it leaves readable, and that nothing it
replaced or wrote in vain leaks.

## Where the code does not do what is said of it

Each of these is a lemma that says exactly when the promise holds, most of them next to a
concrete input or run on which it does not.

- A fence can move back. A conditional delete draws its stamp before it merges, and the
  operator adopts that stamp whatever fence it finds; of two overlapping deletes the one
  stamped first may merge last, after which a put with a token that an already reported
  delete had ruled out succeeds (`StorageFences.FenceMovesBack`). The comments say a second
  delete moves the fence forward.
- Expiry undoes a fence. A put over a row that has expired and was not swept expects that
  row's version instead of the one its caller named, so a token older than the last delete
  succeeds (`StorageFences.ExpiredRowAdmitsToken`). Over runs in which nothing but
  conditional writes touches the key, these two are the only ways round a fence: the token
  stays refused if and only if no delete stamped before it is admitted and no write asking
  with it wins over a row it found expired (`StorageFences.FenceHoldsExactly`).
- The in-memory put reads the clock twice before it decides; a put that expects the right
  version of an entry expiring in between is refused although both instants admit it
  (`CasSpec.CachePutMeetsSpec`).
- Folding operands early is not always neutral: on a missing key a fold of migrations and
  purges leaves a row that a guarded delete then matches (`Merge.RegroupsExactly`). For
  the same reason the operator and the in-memory cache differ on one family of operands
  (`CasSpec.MergeMeetsSpec`).
- When the compactor finds a file of the wrong size and cannot re-read its row, it stages
  no purge but still queues the file (`StorageDamage.UnreadDropExactly`).
- A cluster listing forgets the cursor of every node that contributes nothing to a page;
  two nodes with three keys can list for ever (`ClusterListing.ListingLoops`,
  `ClusterListing.RepeatsExactly`).
- A start key outside the prefix, with a row in between, hides every key
  (`Listing.BlockedHidesKeys`); the page method says when.
- Removing old access buckets breaks the eviction index exactly when a row was last
  touched before the cutoff (`EvictionIndex.CleanupKeepsIndexExactly`,
  `EvictionIndex.CleanupBreaksIndex`).
- The orphan sweep relies on the grace window alone. Its snapshot may be older than a
  commit that its other guards no longer see (`OrphanSweep.LateCommitIsSwept`), and a
  writer that stalls for the window and goes on between the look at the file's age and the
  try for its lock loses its file however promptly it commits
  (`OrphanSweep.StalledWriterIsSwept`). It is safe if and only if both the gaps between bytes
  and the gap from the last byte to the commit stay below the window
  (`OrphanSweep.SafeExactly`), and one look at a file's age is final if and only if nobody is
  writing it just then (`OrphanSweep.AgeGuardExactly`).
- A reconcile does not erase drift that arises beside it: two puts of one key that read the
  same row, or one whose read fails, charge the counter for more than they change
  (`Accounting.RacingPutsDrift`, `Accounting.UnreadPutDrifts`).
- The eviction index does not hold exactly one entry per key. Nothing serialises the puts of
  a key, so two of them may find the same entry and leave both of theirs, with every read
  succeeding (`EvictionIndex.RacingPutsLeaveTwo`). It does hold throughout a run if and only if
  no batch is written while the back-reference names an entry that is there and that the batch
  neither found when it looked nor writes itself (`EvictionIndex.RunKeepsOneEntryExactly`).
- Every row stays findable by eviction except when a key is written twice in one nanosecond
  and the first entry is reclaimed after the second write
  (`EvictionIndex.StepKeepsIndexExactly`, `EvictionIndex.SameStampStrands`).
- A reconcile may re-stamp a key that was indexed meanwhile: exactly those it writes that had
  no back-reference in its snapshot and were put, and not deleted after that, before its batch
  (`Backfill.RestampsExactly`, `Backfill.PutIsRestamped`).
- A put refused with expected value 0 may succeed later (`Memory.ZeroMayMatchLater`), expiry
  leaves no fence (`Memory.ExpiryForgetsTheFence`), and a live read can report version 0
  (`Memory.LiveReadVersion`).
- "A closed segment has all its metadata published" does not hold of the recompactor's own
  destinations, which it closes before it commits; what keeps them safe is that there is
  only one recompactor (`StorageMigration.RollDestinationKeeps`).

## Model

| member | source | states |
|---|---|---|
| `Merge.FullMerge` | storage/merge/operator.go:203-415 | the operator computes the fold of the well-formed operands over the row, keeps an undecodable row verbatim, and never fails |
| `Merge.FoldAppend` | storage/merge/operator.go:203-415 | folding a concatenation is folding twice |
| `Merge.PutStores` | storage/merge/operator.go:230-264 | a conditional put stores every field of its operand on a missing key, over a delete it is ordered after and over the version it expects, and else leaves the row alone |
| `Merge.DeleteStores` | storage/merge/operator.go:265-305 | a conditional delete leaves a row with nothing but the sentinel expiry and its stamp under the same conditions, an unstamped one when it is guarded on a missing key, and else the row alone |
| `Merge.MigrationStores` | storage/merge/operator.go:347-378 | a migration moves exactly a row still where it was read: location, length, checksum, data and expiry are the operand's, the version the row's |
| `Merge.PurgeStores` | storage/merge/operator.go:318-330 | a purge deletes exactly the row still on its file and leaves no fence; any other untagged operand does nothing |
| `Merge.LastOperandDecides` | storage/merge/operator.go:214-407 | a group ends as its last operand leaves what came before; a key still missing reads as deleted without a fence |
| `Merge.RegroupsExactly` | storage/merge/operator.go:203-415 | the store may fold a group early, whatever comes later, exactly when the key has a row or the group holds a conditional operand |
| `Merge.MergeKeepsStoredForm` | storage/merge/operator.go:203-415 | over any operands a stored row carries exactly the path its type calls for and no operand-only field |
| `Merge.MigrationsNeverResurrect` | storage/merge/operator.go:310-415 | no group of migrations and purges brings a deleted key back or disturbs its fence |
| `Merge.MigrationsKeepVersion` | storage/merge/operator.go:310-415 | over any migrations the row keeps its last writer's version |
| `Memory.MemoryCache.GetWithVersion` | client/memory.go:137-150 | the read, its token and the stamp it may draw are those of the specification; consistency is kept |
| `Memory.MemoryCache.PutIfVersion` | client/memory.go:157-177 | the whole new state and the outcome of a conditional put; on success the value and the stamp returned are stored |
| `Memory.MemoryCache.DeleteIfVersion` | client/memory.go:183-208 | the whole new state and the outcome of a conditional delete |
| `Memory.MemoryCache.Put` | client/memory.go:211-237 | a plain put stores the value and drops stamp and fence |
| `Memory.MemoryCache.Delete` | client/memory.go:349-362 | a plain delete drops value, stamp and fence |
| `Memory.MemoryCache.Get` | client/memory.go:254-279 | lazy expiry re-checks and never touches a fence |
| `Memory.PutIfShows` | client/memory.go:157-177 | a success shows exactly the given bytes under the next stamp to every reader until the lifetime ends and to none afterwards; a refusal changes nothing and reports what a reader is shown; no other key changes |
| `Memory.DeleteIfShows` | client/memory.go:183-208 | a success leaves the next stamp as the token every reader is told; a refusal changes nothing and reports what a reader is shown, or 0 for a key without history |
| `Memory.PlainPutShows` | client/memory.go:211-237 | a plain put shows its bytes under version 1 for its lifetime |
| `Memory.DropShows` | client/memory.go:85-92 | after a plain delete the next reader draws a token above every stamp so far |
| `Memory.ExpireIsInvisible` | client/memory.go:94-106 | lazy expiry removes an entry exactly when it has expired, and no later reader can tell |
| `Memory.NextShows` | client/memory.go:137-362 | the same for every event of a run: an admitted write shows its value or fence, a refused one, a read and an expiry change nothing a reader sees, a delete and a close leave nothing, and no other key is touched |
| `Memory.FenceOrdering` | client/memory.go:111-208 | after a successful conditional delete a write carrying a token from before it succeeds exactly if it is a put that finds the key expired, over any later run in which the key sees no plain operation and is not dropped as expired |
| `Memory.TokenAdmittedWhenQuiet` | client/memory.go:111-177 | if nothing succeeded on the key since an absent read, the put with its token succeeds |
| `Memory.ExpectedSucceedsOnce` | client/memory.go:122-208 | an issued non-zero expected value succeeds again exactly if it is carried by a put that finds the key expired |
| `Memory.RefusalIsFinal` | client/memory.go:122-177 | a put refused with an issued non-zero value, by a fence or a value still live, is refused for good, with the same one exception |
| `Memory.ZeroMayMatchLater` | client/memory.go:122-177 | with value 0 it is not: a concrete run |
| `Memory.ExpiryForgetsTheFence` | client/memory.go:99-106 | a run in which expiry lets an old token through |
| `Memory.StampNamesOneValue` | client/memory.go:64-237 | in every run a stamp of 2 or more on a key denotes the same bytes |
| `Memory.VersionNamesWhatWasPut` | client/memory.go:157-177 | whoever is shown the version a put returned, at any point of any run, is shown the bytes that were put |
| `Memory.TokenIsNeverALiveVersion` | client/memory.go:64-150 | an absence token never equals a version the key shows live, before or after |
| `Memory.LiveReadVersion` | client/memory.go:75-150 | a live read reports version 0 exactly when the entry expires between its two clock readings |
| `CasSpec.MergeMeetsSpec` | storage/merge/operator.go:230-292 | the operator implements the conditional-write specification exactly outside a guarded delete over an unstamped tombstone |
| `CasSpec.CachePutMeetsSpec` | client/memory.go:157-177 | whatever its three clock readings, the in-memory put is the specified one at its first or second reading, except when the entry expires in between and carries the version expected; no other key is touched |
| `CasSpec.CacheDeleteMeetsSpec` | client/memory.go:183-208 | whatever its two clock readings, the in-memory delete is the specified one at one of them, and touches no other key |
| `CasSpec.ShutExactly` | storage/merge/operator.go:101-106 | a write opens a shut key to a token exactly when it is an admitted delete stamped before the token |
| `CasSpec.SuccessShuts` | storage/merge/operator.go:101-106 | a success shuts the key against the value it expected |
| `Stamps.RunKeepsInv` | storage/cas.go:66-126 | in every interleaving with crashes the published ceiling stays below the durable one and both cover every stamp issued |
| `Stamps.StampsStrictlyIncrease` | storage/cas.go:66-126 | stamps issued strictly increase across callers, clocks, failed writes, crashes and restarts, and the durable ceiling covers them |
| `Stamps.HistoryGrows` | storage/cas.go:109-126 | what was issued stays issued, so later stamps exceed all earlier ones |
| `Stamps.CallIssues` | storage/cas.go:80-126 | a caller that runs alone from any reachable state is issued the greater of its clock reading and one past the last stamp; the durable ceiling is raised a whole block past it exactly when it was not covered |
| `Stamps.RestartIssuesAboveCeiling` | storage/cas.go:63-78 | the first stamp after a restart is past everything reserved before |
| `Stamps.ChosenFromTheClock` | storage/cas.go:111-116 | a stamp under way was chosen at some step of the run as the greater of the clock read and one past the last stamp then |
| `Stamps.StampsFollowTheClock` | storage/cas.go:103-116 | no stamp of a run is below a bound all its clock readings meet, so none collides with 0 or the legacy version |
| `StorageInvariant.OthersPersist` | storage/cas.go:414-544 | whatever a thread relies on between its steps survives any admissible step of another |
| `StorageWriters.CommitMoves` | storage/storage.go:1307-1377 | committing a put keeps the store sound and leaves the replaced file dead |
| `StorageWriters.RemoveMoves` | storage/eviction.go:96-113 | removing collected rows leaves all their files dead before any is queued (that they are queued is `StorageReclaim.RemovalReclaims`) |
| `StorageWriters.MergeReplaces` | storage/cas.go:420-446 | whoever wins the merge, the row read before it is no longer on the file it was read on |
| `StorageWriters.MergeCasMoves` | storage/cas.go:438-460 | the merge keeps the store sound; a refused operand leaves no trace of its stamp or file |
| `StorageWriters.LostSpillIsDead` | storage/cas.go:517-530 | a put that reads back another stamp owns a file no row references |
| `StorageBatches.BatchKeepsMeaning` | storage/compaction/compactor.go:580-722 | over an atomic batch every row stays, or moves with bytes, expiry and version kept, or was on a damaged file and is dropped |
| `StorageBatches.BatchClearsRaw` | storage/compaction/compactor.go:438-459 | no row is left on a raw file some operand of the batch leads away from |
| `StorageBatches.BatchClearsSegment` | storage/compaction/recompactor.go:338-358 | no row is left in a segment the whole batch leads away from |
| `StorageBatches.StaleOperandsDoNothing` | storage/compaction/recompactor.go:470-494 | operands read off another path than the row's leave a newer write alone |
| `StorageMigration.CopyEntryKeeps` | storage/compaction/compactor.go:580-690 | copying a file stages a migration that leads to its very bytes |
| `StorageMigration.CommitCompactKeeps` | storage/compaction/compactor.go:438-459 | after the commit every source of the batch is dead, so it may be queued |
| `StorageMigration.RollCompactKeeps` | storage/compaction/compactor.go:739-788 | closing a segment and taking another keeps everything relied on, given the guard that nothing is unpublished |
| `StorageMigration.DropBrokenKeeps` | storage/compaction/compactor.go:380-433 | a missing or damaged file whose row can be re-read is purged from it before it is queued |
| `StorageMigration.VisitLiveKeeps` | storage/compaction/recompactor.go:290-318 | an entry its key's row points at is the only place that row can be in the segment |
| `StorageMigration.CopyLiveKeeps` | storage/compaction/recompactor.go:416-494 | copying a live entry keeps every row of the source segment either to be visited or staged |
| `StorageMigration.RollDestinationKeeps` | storage/compaction/recompactor.go:425-446 | closing a destination before publishing is safe because nothing else can retire it |
| `StorageMigration.CommitRecompactKeeps` | storage/compaction/recompactor.go:338-389 | when every entry was visited and nothing failed, the commit leaves no row in the source segment |
| `StorageSafety.StepKeepsInv` | storage/storage.go:1307-1377 | every step of every actor, and a crash, keeps the invariant |
| `StorageSafety.RunFromKeepsInv` | storage/compaction/compactor.go:267-460 | the invariant survives every run |
| `StorageTheorems.NoRowOnAQueuedPath` | storage/compaction/compactor.go:438-459 | in every reachable state no row references a path ever queued for deletion |
| `StorageTheorems.QueuedPathStaysUnreferenced` | storage/compaction/recompactor.go:360-389 | nothing in flight installs such a reference later, whatever follows |
| `StorageTheorems.EveryRowReads` | storage/storage.go:899-1025 | every row leads to a file or entry that is still there and is its own key's, with bytes of the length it claims unless the file was damaged |
| `StorageTheorems.ReportedSuccessWasAdmitted` | storage/cas.go:459-544 | a conditional write that reads back its own stamp was admitted at its merge, at a step of the run that made it the row |
| `StorageTheorems.LostSpillIsUnreferenced` | storage/cas.go:517-530 | a losing put's spill file is referenced by no row when it is queued, nor after any run that follows |
| `StorageTheorems.StepMeaning` | storage/compaction/compactor.go:580-690 | no step but a write of the key changes the bytes, expiry and version it reads as, unless its file was damaged |
| `StorageTheorems.MeaningSurvives` | storage/compaction/recompactor.go:416-494 | the same over whole runs of compaction, recompaction, queueing, crashes and other keys' writes |
| `StorageTheorems.PutReadsBack` | storage/storage.go:1163-1377 | what a put was given is what the key reads as when it commits, whatever ran since it started |
| `StorageTheorems.CompactionReclaims` | storage/compaction/compactor.go:438-459 | a staged source is queued once its batch commits, with no row on it |
| `StorageTheorems.RecompactionRetires` | storage/compaction/recompactor.go:338-389 | a segment visited without failure is retired, with no row in it |
| `StorageDamage.StepTakesOffExactly` | storage/compaction/compactor.go:610-690 | a row leaves its raw file exactly by a put, a delete, an admitted conditional write or a committed batch that moves or purges it |
| `StorageDamage.RunTakesOffExactly` | storage/compaction/compactor.go:438-459 | over whole runs: it is still there exactly when none of these happened, and never comes back |
| `StorageDamage.UnreadDropExactly` | storage/compaction/compactor.go:413-433 | whatever runs between dropping a damaged file without re-reading its row and queueing it, the row dangles exactly when it was on the file and no step since took it off |
| `StorageDamage.UnreadDropDangles` | storage/compaction/compactor.go:541-577 | a reachable state in which it does |
| `StorageDamage.DanglingIsPurged` | storage/storage.go:1486-1519 | a row on a file that was unlinked is turned into a plain miss by the read that finds it so; a row that has moved on, and every other row, is left alone |
| `StorageReclaim.OwedIsReclaimed` | storage/storage.go:816-820 | a path a writer has to hand over stays with it through any run until it is queued, unless the process crashes or the queue refuses it, and no row is on it then |
| `StorageReclaim.GoneExactly` | storage/deletion/queue.go:262-298 | a path leaves the disk exactly when the queue unlinks it, and only if it was queued; no other step of any writer, compactor or crash removes one |
| `StorageReclaim.QueuedIsUnlinked` | storage/deletion/queue.go:215-221 | a path queued at any point of a run is off the disk when the queue gets to it, whatever ran before, and no row is on it |
| `StorageReclaim.RemovalReclaims` | storage/storage.go:864-890 | a row collected by a delete, an eviction or an expiry is gone at the commit and the raw file it was on is reclaimed, whatever runs before and after |
| `StorageReclaim.PutReclaims` | storage/storage.go:1330-1376 | a put that commits is the row and the file of the row it found is reclaimed; one that fails changes no row and its own file is; a medium-sized file is listed for compaction |
| `StorageOutcomes.CasPutReadsBack` | storage/cas.go:377-466 | what a conditional put was given is what the key reads as when it is admitted, whatever ran since it started |
| `StorageOutcomes.ReadBackReclaims` | storage/cas.go:470-538 | after the merge the file of the row the write had read is reclaimed if it won or cannot tell, its own if it lost; a file it may have published is listed for compaction |
| `StorageOutcomes.RefusedPutReclaims` | storage/cas.go:423-436 | a conditional put goes on with the row it has just read, or is refused and its own file is reclaimed |
| `StorageOutcomes.FailedCasReclaims` | storage/cas.go:450-466 | a write that fails before its merge changes no row and its own file is reclaimed |
| `StorageOutcomes.DeleteChecksRow` | storage/cas.go:647-696 | a conditional delete goes on with the row it checked and the stamp it drew |
| `StorageOutcomes.CompactionMoves` | storage/compaction/compactor.go:580-690 | an intact file listed for compaction moves: if its row is unchanged at the commit only the location changes, the key reads as before, the file is off the list and queued |
| `StorageOutcomes.StaleEntryIsReclaimed` | storage/compaction/compactor.go:369-387 | a listed file its row is not on is queued, unless the row is in a segment already |
| `StorageOutcomes.DamageIsPurged` | storage/compaction/compactor.go:413-433 | a damaged file whose row is still on it at the commit leaves the key deleted without a fence and is queued |
| `StorageOutcomes.MissingEntryIsDropped` | storage/compaction/compactor.go:392-400 | a listed file that is gone is off the list when the batch commits |
| `StorageOutcomes.RecompactionMoves` | storage/compaction/recompactor.go:416-494 | a live entry whose row is unchanged at the commit is read from its copy afterwards, with only the location changed |
| `StorageOutcomes.FailedPassKeepsSource` | storage/compaction/recompactor.go:338-358 | a pass that gave up on an entry publishes what it copied and does not retire its segment |
| `StorageOutcomes.SegmentIsFreed` | storage/compaction/recompactor.go:338-358 | a compactor that stops or commits leaves its open segment for the next to fill, and a crash every open one |
| `StorageOutcomes.RolledSegmentStays` | storage/compaction/compactor.go:739-788 | a segment either compactor leaves as full keeps exactly its entries over every later run |
| `StorageFences.MergeFollowsSpec` | storage/cas.go:438-460 | each merge of the concurrent machine follows the sequential specification of a conditional write |
| `StorageFences.PutAloneExactly` | storage/cas.go:414-544 | a conditional put nobody interferes with is admitted and reports success exactly when the specification admits it on what the clock leaves of the row |
| `StorageFences.DeleteAloneExactly` | storage/cas.go:633-780 | the same for a conditional delete: its check keeps it out of the operator's blind spot |
| `StorageFences.TokenAdmittedWhenQuiet` | storage/cas.go:266-309 | if nothing wrote the key since an absent read, the put with its token succeeds, whatever migrations ran |
| `StorageFences.ReadTokenAdmitted` | storage/cas.go:192-204 | the same from the steps of the absent read itself: whatever token it returned, a put that asks with it succeeds as long as nobody wrote the key |
| `StorageFences.LaterStamps` | storage/cas.go:373-383 | a thread without a stamp draws one above all drawn so far, over any run |
| `StorageFences.StepExactly` | storage/cas.go:438-448 | one step opens a shut key to a token exactly when it is an admitted delete stamped before it, and admits a write asking with it exactly when that found the row expired and the key admits the row's version |
| `StorageFences.FenceHoldsExactly` | storage/cas.go:266-309 | over whole runs of conditional writes the token stays refused exactly when neither ever happens |
| `StorageFences.ShutExactlyRefuses` | storage/cas.go:430-448 | a put with a token succeeds exactly when the key is not shut against it or its row has expired |
| `StorageFences.TokenStaysRefused` | storage/cas.go:298-309 | an absent read returned a token and a conditional delete that had not drawn its stamp by then is admitted later: no write that asks with the token is admitted afterwards, in any such run |
| `StorageFences.TokenRefusedUnlessExpired` | storage/cas.go:438-448 | the same under the plain condition that no write asking with the token found the row expired |
| `StorageFences.ExpectedSucceedsOnce` | storage/cas.go:336-350 | an issued version is asked with and admitted: no later write that asks with it is admitted, under the same two conditions |
| `StorageFences.VersionIsSettled` | storage/cas.go:336-341 | the version any row shows is such an issued version |
| `StorageFences.FenceMovesBack` | storage/cas.go:675-711 | a run from an absent read over two overlapping deletes that reports a success, refuses the token, and then lets a put with it succeed |
| `StorageFences.ExpiredRowAdmitsToken` | storage/cas.go:438-448 | a run from an absent read over a reported delete and a recreation after which the token is refused, and succeeds once the row has expired |
| `Walker.WalkSegmentLiveness` | storage/compaction/walker.go:50-135 | exactly the failing and the truncated walks derive nothing; a complete one derives dead entries and bytes between the truth at its start and at its end |
| `Walker.StepOnlyKills` | storage/compaction/walker.go:32-38 | no step of the storage machine makes a row refer to a closed segment that is not being filled |
| `Walker.WalkMeetsOnlyDeaths` | storage/compaction/walker.go:32-38 | so a walk interleaved with any run meets entries that only die |
| `Walker.LiveExactlyWhenRead` | storage/compaction/walker.go:96-114 | in every reachable state an entry counts as live exactly when some row reads from it, and exactly when the recompactor would copy it |
| `Walker.DeadAndLive` | storage/compaction/walker.go:113-134 | dead and live entries and bytes add up to the file |
| `EvictionIndex.WriteKeepsIndexExactly` | storage/storage.go:1416-1453 | whichever entry of its key a put, refresh or delete found earlier, its batch keeps every row findable; reclaiming an entry does exactly when no row is found by it |
| `EvictionIndex.WriteKeepsOneEntryExactly` | storage/storage.go:1411-1429 | a batch keeps one entry per key exactly when the back-reference at the write does not name an entry that is there and that the batch neither found nor writes; a delete then leaves none of its key |
| `EvictionIndex.StepKeepsIndexExactly` | storage/eviction.go:222-257 | one step of an interleaving keeps every row findable exactly when it does not reclaim the entry a row is found by |
| `EvictionIndex.StepKeepsInvExactly` | storage/access_updater.go:202-219 | no row is ever found by an entry about to be reclaimed, exactly until a key is written again in the nanosecond of such an entry |
| `EvictionIndex.RunKeepsIndex` | storage/storage.go:1348-1367 | so over every interleaving of look-ups and batches of puts under both policies, refreshes, deletes and evictions, failures included, every row stays findable |
| `EvictionIndex.SameStampStrands` | storage/eviction.go:190-198 | a state in which such a second write loses its row to eviction |
| `EvictionIndex.RunKeepsOneEntryExactly` | storage/storage.go:1411-1429 | one entry per key holds throughout a run exactly when no batch of it leaves one behind |
| `EvictionIndex.UndisturbedLeavesNothing` | storage/storage.go:1416-1429 | a look-up that succeeds and is still right when its batch is written leaves nothing behind |
| `EvictionIndex.AloneExactly` | storage/storage.go:1412-1453 | a put, refresh or delete with nothing between its look-up and its batch changes exactly its own key's row, entry and back-reference, and how |
| `EvictionIndex.EvictionAloneExactly` | storage/eviction.go:178-261 | an eviction of one entry takes the key exactly when the entry is its current one or the row does not decode, and else the entry alone; a failed read does nothing |
| `EvictionIndex.RacingPutsLeaveTwo` | storage/eviction.go:222-228 | two puts that find the same entry leave two, with no read failing |
| `EvictionIndex.CleanupKeepsIndexExactly` | storage/lru.go:34-96 | removing old buckets keeps the index exactly when no row was last touched in one of them |
| `EvictionIndex.CleanupBreaksIndex` | storage/lru.go:54-68 | a store on which it does not |
| `Eviction.WriteKeepsIndex` | storage/eviction.go:96-113 | a batch of eviction deletes keeps it |
| `Eviction.Cleaner.Visit` | storage/eviction.go:155-262 | one entry: exactly the current entry of an unexpired row gets its key evicted, an undecodable row goes uncounted, an entry that cannot be judged stays, and any other is dropped |
| `Eviction.Cleaner.Commit` | storage/eviction.go:96-113 | only a write that succeeds hands files over and promotes the counts |
| `Eviction.Cleaner.EvictByIndex` | storage/eviction.go:59-270 | for any failures, the total drops by exactly the bytes of the rows durably removed, so it is as far from the true sum as before, exactly their files are handed over, survivors stay indexed, and the target is overshot by less than one object; when nothing fails nothing older than what was evicted is left except expired rows, and the target is met or only expired rows are left |
| `Eviction.LiveIsEvictable` | storage/eviction.go:208-243 | the current entry of a row is taken exactly when the row has no expiry or one still ahead |
| `Eviction.LeftMeansExpired` | storage/eviction.go:214-220 | only a row with an expiry the clock of the pass had reached is left |
| `Eviction.RemovedTruly` | storage/eviction.go:96-127 | the live bytes drop by exactly the lengths of what was evicted |
| `Tally.RemovedBytes` | storage/cleaner.go:362-408 | removing distinct rows takes exactly their lengths off the sum of all lengths |
| `Accounting.CorrectionExactly` | storage/cleaner.go:552-561 | after a reconcile the counter differs from the true sum by exactly what operations charged since it was read less what they changed since the snapshot, whatever was off before |
| `Accounting.ChargesItsChangeExactly` | storage/storage.go:1324-1335 | an operation charges what it changes exactly when the row at its commit is as long as the one it read |
| `Accounting.ChargesWhatItChanges` | storage/storage.go:847-857 | a put or delete whose read succeeds and whose key nobody else commits to in between charges and changes the same: what it writes less what it found |
| `Accounting.UndisturbedRunKeepsDrift` | storage/storage.go:1246-1251 | over any interleaving of such operations that finish, the counter is off by exactly as much as before |
| `Accounting.UnracedCorrection` | storage/cleaner.go:695-700 | when they all do, only operations that straddle the snapshot and the counter read are left |
| `Accounting.QuietCorrectionErasesDrift` | storage/cleaner.go:695-700 | with none straddling and none raced, all earlier drift is erased |
| `Accounting.RacingPutsDrift` | storage/storage.go:1246-1251 | two puts of one key beside the scan that leave the counter over |
| `Accounting.UnreadPutDrifts` | storage/storage.go:1393-1398 | a put whose read fails does too |
| `Backfill.AdvanceBackrefTo` | storage/cleaner.go:732-754 | the forward-only cursor answers exactly whether a key has a back-reference, and says when it cannot know; it rests on the first back-reference past the key |
| `Backfill.Reconciler.JoinRow` | storage/cleaner.go:648-665 | one row of the join: it is covered, gets an entry staged, or the back-references broke and nothing more is staged |
| `Backfill.Reconciler.Flush` | storage/cleaner.go:596-606 | staged entries are written at that moment or remembered as lost |
| `Backfill.Reconciler.ReconcileFromMetadata` | storage/cleaner.go:552-722 | beside any puts and deletes of others the index ends as theirs with the pass's entries written in between; it writes only rows without a back-reference in its snapshot, all of them when the retry flag stays down; a truncated scan raises the flag and it stays down when nothing fails; the counter is corrected exactly when the whole scan was read |
| `Backfill.IndexExactly` | storage/cleaner.go:756-772 | which stamp a key carries afterwards: that of the last other writer since the pass wrote it, else the pass's, and a key it did not write is left to the others |
| `Backfill.RestampsExactly` | storage/cleaner.go:756-772 | the pass overwrites somebody's stamp exactly on keys last put, not deleted, between the snapshot and its batch |
| `Backfill.PutIsRestamped` | storage/cleaner.go:768-770 | such a key |
| `Backfill.TotalIsTruth` | storage/cleaner.go:636-646 | what the scan adds up is the sum of the lengths of all rows that parse |
| `TtlSweep.Scan` | storage/cleaner.go:424-498 | the candidates are exactly the expired rows that are not young fences, each key once |
| `TtlSweep.PickedExactly` | storage/cleaner.go:457-472 | a row is picked exactly when its expiry has come, unless it is a stamped tombstone younger than the retention |
| `TtlSweep.DoomedExactly` | storage/cleaner.go:344-361 | a row passes the re-check exactly when it carries the expiry, and as a tombstone the stamp, that the scan saw |
| `TtlSweep.FilesExactly` | storage/cleaner.go:380-389 | handed over are exactly the removed rows that decode and are not in a segment |
| `TtlSweep.Sweeper.Flush` | storage/cleaner.go:314-414 | the rows removed, the bytes subtracted and the files handed over are exactly those of the candidates whose re-check succeeds, in committed batches only, so the total is as far from the true sum as before |
| `TtlSweep.DoomedIsExpired` | storage/cleaner.go:323-366 | a row that passes the re-check is expired at the flush and no young fence, whatever was written since the scan |
| `TtlSweep.FlushSpares` | storage/cleaner.go:314-414 | so no flush removes a live row or a fence younger than the retention |
| `TtlSweep.PickedIsDoomed` | storage/cleaner.go:323-366 | a row still as the scan picked it passes the re-check |
| `TtlSweep.HitsDistinct` | storage/cleaner.go:323-391 | each row is counted once |
| `OrphanSweep.SweepQueuesOnlyOrphans` | storage/orphan_sweep.go:77-152 | if every byte and every commit follows the last byte within the grace window, no row ever references a file the sweep queued, in any interleaving of writers with the snapshot, the listing and each of the checks on a file |
| `OrphanSweep.RunKeepsInv` | storage/orphan_sweep.go:77-152 | in every timely run a reference the snapshot misses is to a file too young to be swept |
| `OrphanSweep.SafeExactly` | storage/orphan_sweep.go:22-31 | for any bounds on the gaps between bytes and before commits, every run is safe exactly when neither bound exceeds the window or nothing can be committed |
| `OrphanSweep.AgeGuardExactly` | storage/orphan_sweep.go:108-128 | a file found old is never both queued and referenced, whatever timely run follows, exactly when it is not being written at that moment |
| `OrphanSweep.StalledWriterIsSwept` | storage/files/manager.go:78-121 | a writer that stalls for the window, resumes between two checks and commits at once |
| `OrphanSweep.LateCommitIsSwept` | storage/storage.go:1228-1260 | a late commit past every other guard |
| `OrphanSweep.LookExactly` | storage/orphan_sweep.go:101-129 | a look nobody interrupts queues a file exactly when it was listed, is not referenced, is still there and old, and is neither registered nor locked |
| `OrphanSweep.SweepExactly` | storage/orphan_sweep.go:77-131 | a whole sweep nobody interrupts queues exactly the files that are on disk unreferenced, as old as the window, and neither registered nor locked |
| `OrphanSweep.AbandonedIsSwept` | storage/orphan_sweep.go:50-55 | the file of a write that failed or of a row that was dropped is queued by the first whole sweep after it left the registry and the window passed |
| `OrphanSweep.RegisteredIsInFlight` | storage/storage.go:1228-1231 | from registration until commit or failure a file is in the registry, so no uninterrupted look queues it |
| `OrphanSweep.ActiveFileIsSpared` | storage/orphan_sweep.go:117-127 | a file found registered or locked at the check for it is not queued by that look, whatever runs until the next |
| `DeletionQueue.CollectDue` | storage/deletion/queue.go:144-203 | the batch is the earliest entries of the first due paths; a due entry left out has a full batch ahead of it |
| `DeletionQueue.CycleConserves` | storage/deletion/queue.go:215-250 | a path leaves the queue only once its file is gone |
| `DeletionQueue.CycleSpares` | storage/deletion/queue.go:222-241 | a locked file, one that cannot be removed and one not attempted stay and stay waiting |
| `DeletionQueue.CycleDeletes` | storage/deletion/queue.go:215-221 | a file that is attempted, free and removable is gone, and with a working commit so is its entry |
| `DeletionQueue.QueuedUntilGone` | storage/deletion/queue.go:81-402 | over whole runs of adds, failed deletes, failed commits and pruning, a queued path waits or its file is gone |
| `DeletionQueue.UnqueuedIsSpared` | storage/deletion/queue.go:81-402 | over the same runs a path nobody queued is on disk exactly if it was there or was created: the queue removes nothing else |
| `DeletionQueue.CycleAdvances` | storage/deletion/queue.go:156-245 | a cycle attempts a due entry's path or strictly shrinks what is ahead of it |
| `DeletionQueue.AttemptedInTime` | storage/deletion/queue.go:156-245 | so it is attempted, or pruned with its file gone, within as many working cycles as entries are ahead and one, whatever is added, pruned or fails in between |
| `DeletionQueue.AddingStaysBehind` | storage/deletion/queue.go:81-106 | entries added later do not get ahead |
| `DeletionQueue.Deletions.Add` | storage/deletion/queue.go:81-106 | an empty path is refused and a failed write reported |
| `DeletionQueue.Deletions.TryDelete` | storage/deletion/queue.go:262-298 | true means the file is not there any more, false that it was locked or is there and could not be removed; a missing unlocked file counts as deleted |
| `DeletionQueue.Deletions.AttemptAll` | storage/deletion/queue.go:215-241 | all paths of a batch are attempted; those that fail get an entry under a later stamp of their own |
| `DeletionQueue.Deletions.ProcessBatch` | storage/deletion/queue.go:138-258 | the cycle as specified, commit failures included |
| `DeletionQueue.Deletions.PruneOldEntries` | storage/deletion/queue.go:301-402 | only entries before the cutoff whose files are gone are dropped, in whatever batches commit, and exactly those when every batch does |
| `Listing.ListKeysWithPagination` | storage/storage.go:516-626 | a page is the first live keys after the start key; hasMore only on a full page; a start key before the prefix with a row in between yields nothing |
| `Listing.ListedExactly` | storage/storage.go:544-599 | listed are exactly the keys that begin with the prefix, come after the start key and have no expiry or one still ahead; a row that does not parse is listed |
| `Order.LessExactly` | server/operations/list.go:45 | one key is before another when it is a proper beginning of it or smaller where they first differ |
| `Listing.List` | server/operations/list.go:95-127 | the loop ends and lists every key unexpired at the end once, in order, and nothing that was not live at the start; with the clock still, exactly the live keys |
| `Listing.BlockedHidesKeys` | storage/storage.go:533-576 | such a start key |
| `KWayMerge.PopMin` | server/operations/list.go:41-58 | a least node leaves the heap |
| `KWayMerge.Prime` | server/operations/list.go:397-412 | the heap starts with the first item of every non-empty response |
| `KWayMerge.PopOne` | server/operations/list.go:425-470 | one round of the merge |
| `KWayMerge.Merge` | server/operations/list.go:385-487 | the page is the first distinct keys sent, entries aligned; cursors and hasMore are exactly what was popped and left |
| `KWayMerge.FirstKeysUnique` | server/operations/list.go:385-487 | there is only one such page |
| `ClusterListing.PageIsFirstPending` | server/operations/list.go:385-487 | given truthful responses, with values or without, the page is the first distinct keys of the true union, sent or not |
| `ClusterListing.MoreIsHonest` | server/operations/list.go:472-485 | hasMore only on a full page, and lowered only when nothing is left |
| `ClusterListing.CursorsAreNext` | server/operations/list.go:391-436 | a cursor for exactly the nodes the page took keys from, at the last of them |
| `ClusterListing.FetchFromAllNodes` | server/operations/list.go:271-381 | each answering node's response is truthful past its cursor and, with values, holds the node's own |
| `ClusterListing.ListClusterWide` | server/operations/list.go:205-264 | fetching and merging yields such a page, its entries aligned and vouched for by a node; it fails exactly without active nodes, on a token for another prefix, and when the context ends |
| `ClusterListing.TokenMeans` | server/operations/list.go:214-227 | without a token everything is pending, with a plain key exactly what comes after it on every node, with a page's token that page's cursors if the prefix is the same |
| `ClusterListing.CoveredRunListsAll` | server/operations/list.go:95-264 | a run that covers every node read so far and ends has listed the whole cluster once, in order |
| `ClusterListing.CoveredRunEnds` | server/operations/list.go:95-127 | and it ends: all pages but the last are full |
| `ClusterListing.RepeatsExactly` | server/operations/list.go:391-436 | the next page repeats a key exactly when a node that delivered lost its cursor |
| `ClusterListing.ListingLoops` | server/operations/list.go:95-264 | a run of any length that never finishes |
| `Wire.ParseAppend` | storage/value_wire.go:259-278 | messages concatenate: a parse depends only on the bytes it consumes |
| `Wire.VarintSound` | storage/value_wire.go:34-69 | what is read as a varint is one of at most ten bytes, the tenth 0 or 1, and its value is that of its seven-bit groups |
| `Wire.VarintComplete` | storage/value_wire.go:34-69 | and every such varint is read |
| `Wire.TagExactly` | storage/value_wire.go:34-69 | a tag is a varint holding a wire type and a field number of at least 1 |
| `Wire.BytesExactly` | storage/value_wire.go:81-116 | a byte string is its length as a varint and then that many bytes |
| `Wire.GroupEnds` | storage/value_wire.go:34-69 | a group ends in the end tag of its own number |
| `Wire.FieldExactly` | storage/value_wire.go:34-69 | a field has a number in range and one of five wire types, and its value is what its type says |
| `Wire.SignedExactly` | storage/value_wire.go:162-184 | a signed field is the number of its width that agrees with the varint modulo a power of two |
| `WireText.Utf8Exactly` | storage/value_wire.go:81-160 | a path is accepted as text exactly when it encodes a sequence of Unicode scalar values |
| `WireExtract.ValueMessageVarintField` | storage/value_wire.go:34-69 | on every byte string it succeeds exactly when the full decode does and returns the last such field |
| `WireExtract.ValueMessageExpiry` | storage/value_wire.go:182-184 | the decode's expiry |
| `WireExtract.ValueMessageValueLength` | storage/value_wire.go:166-168 | the decode's length |
| `WireExtract.ValueMessageVersion` | storage/value_wire.go:173-176 | the decode's version, through a signed number and back |
| `WireExtract.ValueMessageSegmentRef` | storage/value_wire.go:81-116 | the decode's segment path and length |
| `WireExtract.ValueMessageSizeAndRawPath` | storage/value_wire.go:124-160 | the decode's length and raw path |
| `WireExtract.DecodeValueMessageCleanupFields` | storage/value_wire.go:201-252 | the decode's four cleanup fields |
| `WireExtract.UnmarshalSkippingData` | storage/value_wire.go:259-278 | stripping field 2 and decoding is decoding and clearing the data |
| `WireExtract.BuildScalars` | storage/value_wire.go:24-33 | last one wins, field by field |
| `WireEncode.RoundTrip` | storage/value_wire.go:186-252 | an encoded message decodes to itself |
| `WireEncode.DecodedExactly` | storage/proto/storage.proto:15-54 | a message is what some bytes decode to exactly when every field is within its declared type and the paths are UTF-8, so whatever was read is written and read back unchanged |
| `WireEncode.ReadBack` | storage/value_wire.go:166-252 | and every extractor succeeds on it and reads the field that was written |
| `TokenRing.FindOwner` | client/tokenring.go:97-127 | binary search with wrap-around finds the circular successor |
| `TokenRing.DistanceExactly` | client/tokenring.go:97-127 | the distance from a hash is the number of clockwise steps, wrapping round, to a token |
| `TokenRing.OwnerUnique` | client/tokenring.go:97-127 | with distinct tokens there is one successor |
| `TokenRing.AddingMovesOnlyToNode` | client/tokenring.go:54-84 | adding a node moves keys only to it |
| `TokenRing.RemovingMovesOnlyItsKeys` | client/tokenring.go:54-84 | removing a node moves only its keys |
| `TokenRing.SortTokens` | client/tokenring.go:54-72 | the ring holds every token of every node, sorted |
| `TokenRing.ConfiguredExactly` | client/topology.go:184-194 | the tokens of a node are those of its last list |
| `TokenRing.TopologyManager.UpdateTopology` | client/topology.go:145-203 | the ring holds exactly the tokens of active nodes with an address; the same epoch changes nothing |
| `TokenRing.TopologyManager.GetNodeForKey` | client/tokenring.go:97-127 | every key of a non-empty ring is routed to its owner, an active node with an address |

## Left out

- RocksDB, fsync, page-cache advice, file descriptors and locks as such: the store is a map with atomic batches, snapshots and merges.
- Raw files lost without the queue, as in an unclean shutdown, appear as damaged files.
- gRPC services, forwarding, the HTTP gateway, the CLI, metrics and logging: no hard state.
- The circuit breaker, hop limit, gossip and the server's own ring: small or library code.
- Hashes, checksums, base64, JSON and UUIDs: raw paths are fresh, keys encode in order, continuation tokens are the cursor maps themselves.
- Stamps.StampsStrictlyIncrease: stamps are unbounded numbers; the wrap-around of a 64-bit nanosecond counter is not modelled.
- WireExtract.UnmarshalSkippingData: unknown fields kept by the decoder are not part of the decoded message, so nothing is said of unknown fields numbered 2, which stripping loses.
- Listing.ListKeysWithPagination: an iterator error and the retries around the page are not modelled, and one clock reading stands for those of a page.
- EvictionIndex.RunKeepsIndex: a conditional put indexes its row in a batch of its own after the merge, so its row is in no index in between; conditional writes are not among its operations.
- Eviction.Cleaner.EvictByIndex: the pass is one step. A put between its look at a row and its batch makes it remove a row of another length than it subtracts (`Accounting.ChargesItsChangeExactly` is the counter) and leaves the new row's file unqueued; what the index keeps then is `EvictionIndex`. Index keys that do not parse, which the pass skips, are not modelled.
- Backfill.Reconciler.ReconcileFromMetadata: the entry under the new back-reference, and whether an older one of its key is deleted with it, is a put of `EvictionIndex`; the counter beside concurrent operations is `Accounting`.
- TtlSweep.Sweeper.Flush: the re-check and the batch of a flush are one step; the eviction entries deleted in the same batch are a delete of `EvictionIndex`; rows that do not parse are dropped by the scan without a re-check and are only set aside here.
- OrphanSweep.SweepQueuesOnlyOrphans: readers' locks, the published sizes and a listing that fails are not modelled; each only keeps files from being queued.
- StorageFences.PutAloneExactly: the check before the body is read is not modelled; the check before the merge repeats it.
- StorageFences.TokenStaysRefused: the versions live reads return are not part of the machine; callers may ask with any number.
- ClusterListing.ListClusterWide: a token that cannot be encoded, and the node that reads a value too large or unreadable, are not modelled.
- Accounting.CorrectionExactly: rows are their lengths; a row that does not decode counts for nothing.
- DeletionQueue.Deletions.ProcessBatch: queue keys that do not parse and a shutdown in the middle of the scan, which change nothing, are not modelled.
- The storage machine and the stamp source are step functions on values, not objects: what is proved is about the interleaving of their atomic steps, not about memory layout.
- The delete-index counters and their merge, segment files as bytes, and startup recovery: liveness is derived by the walk instead.
- The eviction bookkeeping of conditional writes and the disk-limit thresholds: float and clock dependent, or one branch.
- ListPage and range reads of the in-memory cache, and listing with values from storage: they would add only easy members.
