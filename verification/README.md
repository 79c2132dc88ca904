# Verification of the TimescaleDB recorder

A Dafny model of the recorder's three cores and proofs of what they promise. Time is an integer
number of microseconds everywhere, SQL statements are functions on finite maps from row id to row,
one committed transaction is one atomic step, and threads and tasks interleave as steps of a
relation.

`dafny verify dfyconfig.toml` checks everything.

## What is modelled

**Per-minute rollup.** `HeldReadings` defines, instant by instant, which reading is held and what a
minute's integral and coverage therefore are; it knows nothing of ranges or segments.
`MinuteRefresh` is the window query of `states_minute_refresh` (bounded carry-in, LEAD segments,
slicing, grouping) and proves that it computes that definition. `RefreshLaws` derives split
independence and conservation. `RollupState` is the state machine of arriving samples, job tails,
one-day dirty units, config syncs, removals, backfilled rows and mark-dirty, in any order, and
`MinuteJob`, `JobRuns` and `RollupDb` are the job and the sync as loops over it. `LateRows` says how
far a row behind the frontier reaches and what marking it restores.

The rollup's promise is proved for the runs `RollupState.Allowed` admits: a row behind the frontier
is no older than the lookback or is followed by a mark-dirty with an open end; the first tail after
a sync comes within the lookback; while an entity has no frontier, no row older than its queued
history arrives. `syncedAt` in `Config` is a history variable. The integration can break the first
of these: live rows held up by an outage longer than the lookback, without overflow, are written in
LIVE mode, and only the backfill mode remembers late rows for a mark (`states_worker.py:396-401`).
`LateRows.LateWriteLeavesStale` is such a row, and `LateRows.UnmarkedWriteKeepsExactlyWhen` says when
a row without a mark is safe, whatever its value: iff every settled minute it reaches is queued or
awaits a mark. `LateRows.HarmlessRunKeeps` proves the promise over the runs that ask no more than
that. A mark-dirty *with* an end can leave out its last minute, because the refresh truncates its
end: `LateRows.MarkCoversExactlyWhen` gives the exact condition.

**SCD2 version history.** `Versions` fixes tables and the window order. `Repair`, `Verification`,
`StatesFlat`, `Collapse`, `StartMoves`, `DevicePreview`, `GapMerge` and `RepairRun` are the repair
tool: its SQL, its checks, its dry-run previews and its order of steps. PostgreSQL moves a row to a
new ctid when it updates it: `Renumbering` shows that a whole run, its checks and its convergence do
not depend on that, and `MergeRenumbering` shows it of the merge passes. `LiveWrites` is the metadata
worker's four kinds of items; `LiveRuns` says what whole runs of them keep and what a replay
changes, `Losses` which changes are recorded, which are counted as lost, and which two kinds are
neither. `Snapshot` and `Startup` are the startup snapshot with its sweeps. `MetaWorker`,
`PersistentQueue`, `CrashReplay` and `RegistryListener` carry an item from the event callback to the
table: the hand-off buffer, the queue file (character by character, so an append can be torn
anywhere), and the write-then-acknowledge loop under crashes. The JSON encoding is a parameter with
the properties of `PersistentQueues.Json`; `UnaryIsJson` shows they can be met.

**State ingestion.** `Ingestion` is the step relation of the live queue, the states worker's modes,
the event loop's callback, the orchestrator and its crash and relaunch, and proves the handshake.
`NoEventLost` proves that overflow loses nothing, `EmptyTable` what an empty `states` table costs,
and `BackfillProgress` that a backfill cannot get stuck. `OverflowQueue`, `Backfill`, `StatesWorker`
(its main loop cut at the interleaving points), `Retry`, `RetryLaws` and `Flush` are the parts in
their own imperative form.

The ingestion proofs assume that an event's callback runs after its `last_updated` and at most ten
minutes after it, that the recorder returns every event of a slice, that the database accepts every
row (one it refuses is dead-lettered, which `Flush` accounts for), and that no worker is respawned.
Over an empty `states` table the promise is false; `EmptyTable.FirstReadGivesUpEverything` says
exactly which events a first install gives up, and `EmptyTable.LossOnEveryRun` when any run does.

## Where code and documentation differ

The code is followed.

- `persistent_queue.py:254-262` says the size estimate corrects itself after malformed lines. It
  does not: a dropped malformed line is counted at start-up and never subtracted
  (`PersistentQueues.TornLineIsCounted`). The estimate is right iff every line found at start-up is
  blank or a record (`PersistentQueues.CountIsRightExactlyWhen`); otherwise it stays too high by the
  number of the others, also once the file is drained (`PersistentQueues.CountExceeds`,
  `MetaWorkers.MetaWorker.RunMainLoop`), and by one or two more for a batch put onto a torn last line
  (`PersistentQueues.GluedPut`).
- `const.py:1245-1250` says the device-extension preview and the run give the same answer. The
  preview leaves the planned alignments out and can promise moves the run does not make
  (`DevicePreview.PreviewMayPromiseTooMuch`, and exactly when in
  `DevicePreview.DevicePreviewIsTrueExactlyWhen`).
- `meta_worker.py:169-174` presents `out_of_order_skips` as the count of changes skipped out of
  order. A rename that closes nothing and a sweep that comes too late are skipped in part and not
  counted (`Losses.LateRenameLeavesBothOpen`, `Losses.LateSweepLeavesUnlistedOpen`).
- `const.py:1798-1800` says a mark-dirty range ends where a reading can reach at most. The range
  then loses its last, partly reached minute to truncation (`LateRows.MarkWithAnEndLeavesStale`).

## Model

| member | source | states |
|---|---|---|
| HeldReadings.HolderIsUnique | custom_components/timescaledb_recorder/const.py:1663-1671 | At any instant at most one reading is held, so the reference definition (last numeric reading, for its hold) is a function of the instant |
| HeldReadings.AreaSplits | custom_components/timescaledb_recorder/const.py:1672-1681 | Integral and coverage over a range are those over its two parts, wherever it is cut |
| HeldReadings.AreaOfReading | custom_components/timescaledb_recorder/const.py:1663-1671 | Between a reading and the next one, integral and coverage are its value times the time it is held, cut at its hold |
| HeldReadings.CoverageBounds | custom_components/timescaledb_recorder/const.py:1682-1686 | A minute that gets a row has more than zero and at most sixty seconds covered |
| MinuteRefresh.CarryInReaches | custom_components/timescaledb_recorder/const.py:1646-1655 | The carry-in lookup, bounded by the longest hold, never misses a reading that reaches the range: before the first point found nothing is held |
| MinuteRefresh.PointsAreGapless | custom_components/timescaledb_recorder/const.py:1646-1662 | The union of carry-in and range is every reading from its first element on, in order |
| MinuteRefresh.SegmentsSum | custom_components/timescaledb_recorder/const.py:1663-1686 | The slices of the LEAD segments that fall in one minute add up to the reference area of that minute |
| MinuteRefresh.ComputedIsReference | tests/test_states_minute_db.py:53-68 | The query has a row for exactly the minutes some reading covers, with the integral and coverage of the first-principles definition |
| MinuteRefresh.RefreshIsReference | custom_components/timescaledb_recorder/const.py:1624-1692 | After a refresh every minute of the truncated, clock-capped range is at its reference (a row iff something is held), and every other row is untouched |
| RefreshLaws.PiecesEqualOneRefresh | custom_components/timescaledb_recorder/const.py:1624-1692 | Refreshing any pieces that together cover a range, adjacent or overlapping, in any order, leaves the table one refresh of the range leaves |
| RefreshLaws.RefreshConservesArea | custom_components/timescaledb_recorder/const.py:1672-1686 | After a refresh the stored rows of the range add up to value times held time over the clipped segments: nothing is lost or counted twice at minute boundaries |
| RollupState.WriteBackfilledKeeps | custom_components/timescaledb_recorder/states_worker.py:567-572 | A row landing behind the frontier keeps the invariant because the cycle remembers the earliest such row |
| RollupState.TailKeeps | custom_components/timescaledb_recorder/const.py:1720-1734 | A tail unit, also one that queues all but its last day as dirty, keeps the invariant while it moves the frontier |
| RollupState.DirtyUnitKeeps | custom_components/timescaledb_recorder/const.py:1737-1747 | A one-day unit of the newest dirty range keeps the invariant: what leaves the queue is at its reference value |
| RollupState.ResetKeeps | custom_components/timescaledb_recorder/const.py:1777-1796 | A new or changed entity keeps the invariant: no rows, no frontier, whole history queued |
| RollupState.BackfillDoneKeeps | custom_components/timescaledb_recorder/const.py:1801-1808 | The mark-dirty at the end of a cycle, with an open end, covers every minute its rows can have changed |
| RollupState.EveryRunIsRight | custom_components/timescaledb_recorder/const.py:1704-1752 | Over every run of samples, tails, dirty units, syncs, removals, backfills and mark-dirty in any order: each settled minute is stored at its reference value, queued, or awaits a running backfill's mark; with an empty queue and no backfill it is stored |
| MinuteJob.PiecesTile | custom_components/timescaledb_recorder/const.py:1740-1746 | The pieces of a range abut, newest first, from its end back to its start, each at most a day long |
| JobRuns.UnitTakesFirstPiece | custom_components/timescaledb_recorder/const.py:1740-1746 | A unit refreshes the first remaining piece of the newest queue row and leaves that row exactly its other pieces, in order |
| JobRuns.UnitsRefreshThePieces | custom_components/timescaledb_recorder/const.py:1736-1749 | Working off the queue refreshes each piece of each of its rows exactly once and nothing else |
| MinuteJob.UnitsFinish | custom_components/timescaledb_recorder/const.py:1736-1749 | Each unit lowers the remaining work by one; after exactly that many units the queue is empty, whatever the clock says |
| MinuteJob.SyncMatches | custom_components/timescaledb_recorder/schema.py:141-196 | After a sync exactly the wanted entities are configured; new and changed ones start over, removed ones lose their rows, unchanged ones keep frontier, rows and queue |
| JobRuns.JobIsARun | custom_components/timescaledb_recorder/const.py:1704-1752 | A job run is an allowed run of the state machine, if first tails after a sync come within the lookback |
| JobRuns.JobFreshens | custom_components/timescaledb_recorder/const.py:1720-1734 | After a job run each configured entity's frontier is at the run's start, and every closed minute of its tail is stored at its reference value |
| LateRows.LateWriteReaches | custom_components/timescaledb_recorder/const.py:1798-1800 | A row at t that gets no mark leaves a settled minute accounted for whatever its value iff the minute is queued, awaits a mark, is another entity's, or has no instant at which a reading at t could still be held |
| LateRows.UnmarkedWriteKeepsExactlyWhen | custom_components/timescaledb_recorder/states_worker.py:396-405 | Writing a row without a mark keeps the rollup's invariant for every value, zero hold or not, iff each settled minute it reaches is queued or awaits a mark |
| LateRows.InTimeIsHarmless | custom_components/timescaledb_recorder/const.py:1720-1727 | A row within the lookback, or in the queued history of an entity without a frontier, meets that condition |
| LateRows.HarmlessRunKeeps | custom_components/timescaledb_recorder/const.py:1704-1752 | The rollup's promise over every run that asks of its unmarked rows no more than that condition |
| LateRows.LateWriteLeavesStale | custom_components/timescaledb_recorder/states_worker.py:396-405 | A concrete late row that leaves its own settled minute neither right nor queued |
| LateRows.MarkRestores | custom_components/timescaledb_recorder/const.py:1801-1808 | However late the row, also while a backfill is under way, an open-ended mark from it restores the rollup's invariant |
| LateRows.MarkCoversExactlyWhen | custom_components/timescaledb_recorder/const.py:1801-1808 | The rows a mark with an end inserts cover every closed minute its rows can have changed iff that end plus the longest hold is a minute boundary or lies in the open minute |
| LateRows.MarkWithAnEndLeavesStale | custom_components/timescaledb_recorder/const.py:1801-1808 | A concrete rollup in which, after a late row, its mark and all dirty work, a settled minute is neither right nor queued |
| RollupDb.Database.RefreshMinutes | custom_components/timescaledb_recorder/const.py:1636-1690 | Every minute of the truncated, capped range of a configured entity is at its reference value, no minute that was right stops being so, and the number of rows written is returned |
| RollupDb.Database.WorkUnit | custom_components/timescaledb_recorder/const.py:1737-1747 | The newest day of the newest range is at its reference value, exactly that piece is off the queue, and the rollup's invariant is kept |
| RollupDb.Database.DrainDirty | custom_components/timescaledb_recorder/const.py:1736-1749 | Ends with an empty queue or an exhausted budget, at least one unit done when there was work and none begun past the budget; what the units refreshed and what is left are together what was queued |
| RollupDb.Database.RunJob | custom_components/timescaledb_recorder/const.py:1704-1752 | A job run over the configured entities keeps the rollup's invariant, moves every frontier to its start, leaves every closed minute of each tail at its reference value, and accounts for every queued piece |
| RollupDb.Database.SyncMinuteRollup | custom_components/timescaledb_recorder/schema.py:141-196 | Exactly the wanted entities are configured afterwards and the rollup's invariant is kept; the state is that of the removal and reset steps |
| RollupDb.Database.MarkRollupDirty | custom_components/timescaledb_recorder/states_worker.py:574-578 | Queues the cycle's earliest rollup row through now for every entity whose frontier it is behind, forgets it, and so keeps the rollup's invariant |
| Versions.BeforeIsTotal | custom_components/timescaledb_recorder/const.py:733-740 | The window order (valid_from, open last, valid_to, ctid) is total on the versions of one id |
| Repair.RepairLabels | custom_components/timescaledb_recorder/const.py:745-776 | Rebuild then clamp: a version covers an instant iff it is the last one started by then and covered it before |
| Repair.RepairDisjoint | custom_components/timescaledb_recorder/const.py:745-776 | For any versions at all, afterwards no two of one id share an instant |
| Repair.RepairNormalForm | custom_components/timescaledb_recorder/const.py:733-776 | All at once: same rows, pairwise disjoint, none inverted, no coverage added, and each instant labelled by the last version started iff it originally covered it |
| Repair.RepairedIsClean | custom_components/timescaledb_recorder/const.py:1032-1042 | What the repair leaves, the sequence check passes |
| Repair.RepairIsIdempotent | custom_components/timescaledb_recorder/const.py:745-776 | Repairing twice is repairing once |
| Verification.OverlapIsSharedInstant | custom_components/timescaledb_recorder/const.py:1047-1055 | The && of two half-open ranges holds iff they share an instant; empty ranges overlap nothing |
| Verification.RangeCleanIsDisjoint | custom_components/timescaledb_recorder/const.py:652-667 | Without inverted rows, the range check (and so the exclusion constraint) is clean iff the versions are disjoint |
| Verification.ChecksAgree | custom_components/timescaledb_recorder/const.py:1032-1055 | Without inverted rows the sequence check is clean iff the range check is clean and no empty version starts inside another |
| Verification.RangeCleanHasOneOpen | custom_components/timescaledb_recorder/const.py:1017-1021 | A clean range check implies a clean multi-open check |
| Verification.Verdict | custom_components/timescaledb_recorder/const.py:1298-1308 | All five checks clean means exactly: no inverted or far-future row, disjoint versions, no empty version inside another, one open version at most |
| Verification.VerifyTable | custom_components/timescaledb_recorder/repair_scd2.py:272-294 | The check loop skips the range query while inverted rows make it unsafe to evaluate, and otherwise reports the five counts |
| Verification.RunVerification | custom_components/timescaledb_recorder/repair_scd2.py:272-294 | Over all tables, a table's findings are all zero iff it is sound |
| Verification.RepairVerifiesClean | custom_components/timescaledb_recorder/repair_scd2.py:551-554 | Rebuilt and clamped tables pass every check but the one on future starts |
| StatesFlat.FlatIsOneRow | custom_components/timescaledb_recorder/const.py:331-372 | Over disjoint dimension tables the view returns exactly one row for every state |
| StatesFlat.OverlapDuplicates | custom_components/timescaledb_recorder/const.py:331-372 | Two versions of an entity covering one instant make the view return more than one row: disjointness is needed |
| StatesFlat.RepairedLabel | custom_components/timescaledb_recorder/const.py:331-372 | On repaired tables the one row carries the version last started at the state's time, if it covered it, and no metadata otherwise |
| Collapse.SurvivorStands | custom_components/timescaledb_recorder/const.py:854-878 | For each deleted twin a row with the same start and payload survives and covers what the twin would have been left |
| Collapse.CollapseIsInvisible | custom_components/timescaledb_recorder/const.py:854-878 | Deleting same-start, same-payload twins first leaves the payload that labels each instant after the repair unchanged |
| StartMoves.EntityRepairConverges | custom_components/timescaledb_recorder/repair_scd2.py:551-565 | With devices fixed, rebuild, clamp, align and extend leave their own output alone |
| StartMoves.NeverBoth | custom_components/timescaledb_recorder/const.py:1152-1242 | No version is both aligned and extended |
| StartMoves.ThirdRunChangesNothing | custom_components/timescaledb_recorder/repair_scd2.py:510-568 | From the third run over the four tables on, nothing changes |
| StartMoves.SecondRunMayAlign | custom_components/timescaledb_recorder/const.py:1152-1177 | A concrete database on which the second run still moves a start, because the first extended a device |
| StartMoves.RebuildPreviewIsTrue | custom_components/timescaledb_recorder/const.py:758-767 | On unrepaired data the rebuild preview counts exactly the rows the rebuild changes |
| StartMoves.ClampPreviewIsTrue | custom_components/timescaledb_recorder/const.py:778-788 | The clamp preview and the rows archived as clamped are exactly the rows the clamp changes |
| StartMoves.StartPreviewsAreTrue | custom_components/timescaledb_recorder/const.py:1179-1232 | The align and entity-extension previews, run on unrepaired data, plan exactly the moves the apply makes after the repair |
| DevicePreview.DevicePreviewIsTrueExactlyWhen | custom_components/timescaledb_recorder/const.py:1244-1282 | The device-extension preview and the run agree on a device iff the planned alignments do not change where its entities pull it back to, both cut at its own start; otherwise the preview promises more, never less |
| DevicePreview.PreviewMayPromiseTooMuch | custom_components/timescaledb_recorder/repair_scd2.py:479-503 | A concrete database whose dry run counts a device the run leaves alone |
| GapMerge.PassKeepsClean | custom_components/timescaledb_recorder/const.py:1440-1490 | A merge pass keeps a sequence-clean table clean |
| GapMerge.PassCoverage | custom_components/timescaledb_recorder/const.py:1484-1487 | A pass changes coverage only by filling the planned gaps |
| GapMerge.DeletedIsCovered | custom_components/timescaledb_recorder/const.py:1489-1491 | What a deleted version covered, the merged version of its predecessor covers, for the same id and with the same metadata |
| GapMerge.PassCount | custom_components/timescaledb_recorder/const.py:1489-1491 | A pass removes exactly one row for each planned merge |
| GapMerge.PassShortens | custom_components/timescaledb_recorder/repair_scd2.py:608-622 | A pass shortens the longest mergeable chain by exactly one |
| GapMerge.PassKeepsMerged | custom_components/timescaledb_recorder/repair_scd2.py:608-622 | A pass does not change the merged form, which has one version for each chain, from its first start to its last end |
| GapMerge.MergedCoverage | custom_components/timescaledb_recorder/const.py:1409-1430 | The merged form is valid exactly where the table was and inside its mergeable gaps |
| GapMerge.MergeIdenticalGaps | custom_components/timescaledb_recorder/repair_scd2.py:589-628 | The pass loop raises, leaving table and archive as they were, iff the longest chain has at least twenty links; otherwise it ends with the merged form, valid exactly where the table was and in its mergeable gaps, and with exactly the deleted rows archived, each as it was at first |
| MergeRenumbering.MergeIgnoresCtid | custom_components/timescaledb_recorder/repair_scd2.py:608-622 | Whatever ctids the extended rows get after each pass, the merge plans something for as many passes as the longest chain is long and ends with the rows of the merged form; rows it has yet to archive are as they were at first |
| RepairRun.Session.Normalize | custom_components/timescaledb_recorder/repair_scd2.py:537-554 | Collapse, archive, rebuild and clamp give the specified table, and archive exactly the collapsed and clamped rows as they were |
| RepairRun.Session.RepairEntitiesTable | custom_components/timescaledb_recorder/repair_scd2.py:551-565 | The entity table ends as specified, and each moved start has its old row in quarantine |
| RepairRun.Session.Apply | custom_components/timescaledb_recorder/repair_scd2.py:510-568 | The four tables in script order give the specified database although entities are aligned to devices not yet collapsed |
| RepairRun.RunRestoresInvariant | custom_components/timescaledb_recorder/const.py:652-667 | After a run every table can take the exclusion constraint, and no row was deleted |
| RepairRun.AlignmentLosesNoState | custom_components/timescaledb_recorder/const.py:1152-1190 | Moving a start later never takes metadata from a state the entity already has |
| Renumbering.SequenceCheckIgnoresCtid | custom_components/timescaledb_recorder/const.py:1032-1042 | Without inverted rows the sequence check does not depend on how rows are numbered, although its window order mentions ctid |
| Renumbering.RepairedStaysRepaired | custom_components/timescaledb_recorder/const.py:745-776 | However the rows of a repaired table are renumbered, it stays clean and a further rebuild and clamp leave it alone |
| Renumbering.AlignFollows | custom_components/timescaledb_recorder/const.py:1152-1190 | Alignment moves the same rows to the same starts whatever the ctids of the two tables |
| Renumbering.ExtendDevicesFollows | custom_components/timescaledb_recorder/const.py:1251-1282 | So does the device extension |
| Renumbering.RunIgnoresCtid | custom_components/timescaledb_recorder/repair_scd2.py:510-568 | With any renumbering after every statement on every table, a run of the repair leaves the rows of the specified run |
| Renumbering.FixpointFollows | custom_components/timescaledb_recorder/repair_scd2.py:510-568 | A database that the run leaves alone is left alone under every numbering |
| Renumbering.ThirdRunUpdatesNothing | custom_components/timescaledb_recorder/repair_scd2.py:510-568 | After two runs with any renumbering after every statement, no statement of a third updates a row |
| LiveWrites.FirstStartIsFirst | custom_components/timescaledb_recorder/meta_worker.py:762-783 | A start other than the item's stamp is the entry's created_at, earlier, and only for an id with no version at all |
| LiveWrites.FirstVersionReachesBack | custom_components/timescaledb_recorder/meta_worker.py:762-783 | The first version of an id never seen covers every instant since its registry entry was created |
| LiveWrites.ReconcileInOrder | custom_components/timescaledb_recorder/meta_worker.py:737-760 | In order: the id's one open version equals the item; if it changed, the old version ends exactly where the new one starts |
| LiveWrites.RenameInOrder | custom_components/timescaledb_recorder/meta_worker.py:723-735 | In order: the old id is closed and the new one opened at the same stamp, in one transaction |
| LiveWrites.RemoveInOrder | custom_components/timescaledb_recorder/meta_worker.py:674-680 | In order: the id has no open version left, and nothing is counted |
| LiveWrites.ProcessInOrder | custom_components/timescaledb_recorder/meta_worker.py:473-494 | In order no item is skipped or refused, the invariant holds, other ids are untouched and history is only ever closed, never rewritten |
| LiveRuns.ProcessKeepsValid | custom_components/timescaledb_recorder/meta_worker.py:408-436 | Any item in any order keeps the invariant: the constraint refuses what would break it |
| LiveRuns.ReplayKeepsTable | custom_components/timescaledb_recorder/const.py:420-428 | Writing any item a second time, in any order, leaves the table as the first time left it |
| LiveRuns.ReplayIsSilent | custom_components/timescaledb_recorder/meta_worker.py:496-535 | Replaying an in-order item changes nothing and is not counted as a loss |
| Losses.LossIsCountedUnlessUnnoticed | custom_components/timescaledb_recorder/meta_worker.py:496-600 | For any item on any valid table, everything it asks for is recorded iff neither loss counter moves and it is not a rename whose old id stays open behind a new version, or a sweep ignored, refused or too late; those are never counted |
| Losses.LateRenameLeavesBothOpen | custom_components/timescaledb_recorder/meta_worker.py:723-735 | A rename not later than its old version leaves both ids open, and nothing counts it |
| Losses.LateSweepLeavesUnlistedOpen | custom_components/timescaledb_recorder/meta_worker.py:682-721 | A sweep not later than an unlisted version leaves it open, and nothing counts it |
| Losses.GuardsAloneReplay | custom_components/timescaledb_recorder/meta_worker.py:737-760 | A reconcile is the guarded write behind change detection; without that, replaying it is a no-op iff the version it inserts starts at its stamp |
| Losses.SkippedExactlyWhenLate | custom_components/timescaledb_recorder/meta_worker.py:496-535 | A reconcile is counted as out of order iff it differs from the open version and that starts at or after it |
| LiveRuns.InOrderRun | custom_components/timescaledb_recorder/meta_worker.py:331-355 | If stamps increase per id and no rename meets an open id, whole runs keep the invariant with both counters unmoved |
| Snapshot.ItemsReconcile | custom_components/timescaledb_recorder/registry_listener.py:237-249 | The snapshot items alone make every listed id current and touch no other |
| Snapshot.SweepIsBounded | custom_components/timescaledb_recorder/const.py:547-553 | On any table a sweep closes at most two rows or at most half of the open ones, all unlisted and at its stamp |
| Snapshot.SnapshotReconciles | custom_components/timescaledb_recorder/meta_worker.py:682-760 | Items and sweep of one registry leave exactly its listed ids open, each as listed, closed history and counters unchanged; a refused or empty sweep leaves unlisted ids alone |
| Startup.RegistriesAreIndependent | custom_components/timescaledb_recorder/meta_worker.py:473-494 | In a mixed stream each table ends as if it had seen only its own items, in order |
| Startup.SnapshotsInterleave | custom_components/timescaledb_recorder/registry_listener.py:207-261 | The single buffer append of all items and then all sweeps is, for each registry, its own snapshot |
| Startup.StartupReconciles | custom_components/timescaledb_recorder/registry_listener.py:207-261 | The whole startup stream reconciles every registry at once |
| PersistentQueues.RecordsOfLines | custom_components/timescaledb_recorder/persistent_queue.py:91-115 | Reading back a written batch gives the batch |
| PersistentQueues.RecordsSplit | custom_components/timescaledb_recorder/persistent_queue.py:91-115 | Text appended to a terminated file is read after what was there |
| PersistentQueues.GluedLine | custom_components/timescaledb_recorder/persistent_queue.py:143-167 | A record appended onto a torn piece is one malformed line with it, and only that record is lost |
| PersistentQueues.TornAppend | custom_components/timescaledb_recorder/persistent_queue.py:91-177 | Wherever an append is cut, the file holds a prefix of the batch with every line written whole, and the next append costs at most the one line put onto the piece |
| PersistentQueues.UncutSurvives | custom_components/timescaledb_recorder/persistent_queue.py:91-115 | In these terms an append that was not cut loses nothing |
| PersistentQueues.CountOfLines | custom_components/timescaledb_recorder/persistent_queue.py:254-270 | Over whole batches the count at start-up is the number of items |
| PersistentQueues.CountExceeds | custom_components/timescaledb_recorder/persistent_queue.py:254-270 | Over any file, torn lines included, the count at start-up exceeds the number of items by exactly the lines that are neither blank nor records |
| PersistentQueues.CountIsRightExactlyWhen | custom_components/timescaledb_recorder/persistent_queue.py:254-270 | The count at start-up is the number of items iff every line of the file is blank or a record |
| PersistentQueues.TornLineIsCounted | custom_components/timescaledb_recorder/persistent_queue.py:254-270 | A concrete file with one torn line: the count is one, and no item is there |
| PersistentQueues.GluedPut | custom_components/timescaledb_recorder/persistent_queue.py:108-114 | A batch put onto a torn last line adds to the estimate one more than it adds items, or two more when only the newline was missing |
| PersistentQueues.PersistentQueue.constructor | custom_components/timescaledb_recorder/persistent_queue.py:39-52 | A queue starts with whatever is on disk, nothing in flight, and a size estimate above the number of items by the malformed lines |
| PersistentQueues.PersistentQueue.PutMany | custom_components/timescaledb_recorder/persistent_queue.py:91-115 | Appends the batch as one block of lines; on a sound file the contents grow by exactly the batch, and the estimate stays as far above them as it was |
| PersistentQueues.PersistentQueue.Get | custom_components/timescaledb_recorder/persistent_queue.py:131-177 | Returns the in-flight item or the first readable record and leaves it on disk; with nothing readable it waits, and then returns the first item put meanwhile or, woken without one, none; dropping malformed lines does not correct the size estimate |
| PersistentQueues.PersistentQueue.TaskDone | custom_components/timescaledb_recorder/persistent_queue.py:179-211 | Removes the front line; on a sound file, or if nothing was put onto a torn last line, exactly the in-flight item, the estimate staying as far above the contents as it was |
| CrashReplay.CrashesAreInvisible | custom_components/timescaledb_recorder/persistent_queue.py:9-13 | For any interleaving of puts, gets, writes, acks and crashes: items of all registries are acknowledged once each in FIFO order, and with an empty queue the four tables are those of the crash-free run |
| CrashReplay.CrashesCountNothing | custom_components/timescaledb_recorder/meta_worker.py:496-535 | For a stream in stamp order per registry and id, no replay after any crash is counted as a lost change |
| MetaWorkers.ExecuteClose | custom_components/timescaledb_recorder/const.py:396-418 | The guarded UPDATE closes exactly the id's open rows older than the stamp, and rowcount is their number |
| MetaWorkers.ReconcileTransaction | custom_components/timescaledb_recorder/meta_worker.py:737-760 | Read, close, first-version start, insert and replay probe, committed or rolled back, have the specified outcome |
| MetaWorkers.MetaWorker.ProcessSweep | custom_components/timescaledb_recorder/meta_worker.py:682-721 | Counts first; an empty listing is ignored, an implausible sweep is refused and dead-lettered, otherwise the stale rows are closed |
| MetaWorkers.MetaWorker.WriteItem | custom_components/timescaledb_recorder/meta_worker.py:408-436 | An item changes its own registry's table as specified, and every counted loss and every refused sweep leaves exactly one dead letter with its reason |
| MetaWorkers.MetaWorker.RunMainLoop | custom_components/timescaledb_recorder/meta_worker.py:331-355 | While batches keep arriving during its turns, items written or given up on are acknowledged in order and only the written ones are in the tables; an item a stop interrupts, committed or not, and all after it stay on disk; the size estimate stays too high by what it was, also once the queue is drained |
| RegistryListeners.StepConserves | custom_components/timescaledb_recorder/registry_listener.py:309-346 | Every step keeps file, unresolved batch and buffer together equal to the events, and only extends the file |
| RegistryListeners.EventsAreConserved | custom_components/timescaledb_recorder/registry_listener.py:264-366 | On every run, through failures, cancellation during an append, settling and stop: nothing lost, duplicated or reordered |
| RegistryListeners.StopLosesNothing | custom_components/timescaledb_recorder/registry_listener.py:714-772 | After a stop everything is on disk, unless the last-resort append failed, and then it is still in the buffer |
| RegistryListeners.NothingIsStranded | custom_components/timescaledb_recorder/registry_listener.py:274-307 | While subscribed, unpersisted events leave a step enabled; a successful append brings the file closer to the events, every other step comes strictly closer to an append |
| RegistryListeners.RegistryListener.Enqueue | custom_components/timescaledb_recorder/registry_listener.py:264-272 | A callback's items are behind all earlier events, and file, unresolved batch and buffer are still exactly the events |
| RegistryListeners.RegistryListener.TakeBatch | custom_components/timescaledb_recorder/registry_listener.py:309-324 | All that is not on disk is in flight, in order, and later events find an empty buffer |
| RegistryListeners.RegistryListener.Resume | custom_components/timescaledb_recorder/registry_listener.py:325-346 | Nothing is in flight any more: file and buffer together are exactly the events, whether the append succeeded or failed |
| RegistryListeners.RegistryListener.SettleInflight | custom_components/timescaledb_recorder/registry_listener.py:348-366 | The same for the append a cancelled flush left behind |
| RegistryListeners.RegistryListener.FlushBufferBlocking | custom_components/timescaledb_recorder/registry_listener.py:750-772 | On success every event is on disk; on failure file and buffer are as they were and together exactly the events |
| RegistryListeners.RegistryListener.DrainPass | custom_components/timescaledb_recorder/registry_listener.py:296-307 | While events arrive before and after the append ends, a pass leaves every earlier event on disk and the arrivals buffered, or after a failed append the file as it was and everything else buffered in order, to be retried |
| RegistryListeners.RegistryListener.AsyncStop | custom_components/timescaledb_recorder/registry_listener.py:714-748 | From wherever the drain task is, after the stop every event is on disk, unless both the final and the blocking append fail, and then the rest is in the buffer |
| Ingestion.HandshakeHolds | custom_components/timescaledb_recorder/states_worker.py:370-414 | From any state that has it, every run keeps the handshake, which is one mover in BACKFILL and none in INIT or LIVE |
| NoEventLost.HandshakeOnEveryRun | custom_components/timescaledb_recorder/__init__.py:264-281 | On every run, crashes and relaunches included: LIVE has no request, an idle orchestrator and an empty backfill queue; BACKFILL has exactly one mover |
| NoEventLost.WindowReachesBack | custom_components/timescaledb_recorder/backfill.py:114-126 | The window [watermark - 10 min, t_clear) contains every dropped or cleared event |
| NoEventLost.ArrivalIsBounded | custom_components/timescaledb_recorder/states_worker.py:416-429 | What the worker writes is never more than the grace ahead of an event still waiting, because nothing enqueued after the first drop is taken |
| NoEventLost.StepKeeps | custom_components/timescaledb_recorder/states_worker.py:370-437 | Each step of worker, loop, orchestrator and producers keeps the whole invariant |
| NoEventLost.NoEventIsLost | custom_components/timescaledb_recorder/backfill.py:99-204 | On every run over a non-empty table, each event is stored, on its way, queued, or owed by a cycle |
| NoEventLost.LiveOwesNothing | custom_components/timescaledb_recorder/states_worker.py:391-405 | Back in LIVE every event is stored or in hand, still queued, or dropped since and flagged to trigger the next cycle |
| NoEventLost.EveryWindowReachesBack | custom_components/timescaledb_recorder/backfill.py:124-126 | On every run, at every watermark read over a non-empty table, the window reaches back to all that is owed |
| BackfillProgress.StepsAdvance | custom_components/timescaledb_recorder/backfill.py:99-204 | Each protocol step brings a backfill strictly closer to its end |
| BackfillProgress.SomeoneCanMove | custom_components/timescaledb_recorder/states_worker.py:385-390 | In BACKFILL, after at most the commit lag, some party can move |
| BackfillProgress.NoDeadlock | custom_components/timescaledb_recorder/__init__.py:264-281 | From every reachable point of a backfill a continuation without crashes reaches LIVE |
| BackfillProgress.FirstInstallLosesEvents | custom_components/timescaledb_recorder/backfill.py:115-122 | A concrete run on an empty table that loses an event |
| EmptyTable.FirstReadGivesUpEverything | custom_components/timescaledb_recorder/backfill.py:107-122 | On every run over an empty table, the first watermark read finds it empty and gives up exactly the events emitted before its cycle's clear |
| EmptyTable.LossOnEveryRun | custom_components/timescaledb_recorder/backfill.py:115-122 | On every run of a fresh worker, events are given up iff some step reads an empty table while some are owed |
| OverflowQueues.OverflowQueue.PutNowait | custom_components/timescaledb_recorder/overflow_queue.py:52-73 | Never raises; a full queue keeps its items and counts the new one as dropped |
| OverflowQueues.OverflowQueue.ClearAndResetOverflow | custom_components/timescaledb_recorder/overflow_queue.py:75-90 | Empties the queue, resets the flag, and returns the drops since the last reset |
| OverflowQueues.OverflowQueue.GetAndResetPeak | custom_components/timescaledb_recorder/overflow_queue.py:92-105 | Returns the peak and makes the current depth the new baseline |
| OverflowQueues.Outage | custom_components/timescaledb_recorder/overflow_queue.py:52-90 | Over an outage the first maxsize events are kept in order and the cycle is told exactly how many were dropped |
| BackfillCycles.TilesAbut | custom_components/timescaledb_recorder/backfill.py:179-201 | Slices abut from start to cutoff, each positive and at most five minutes, all but the last exactly five |
| BackfillCycles.TilesTile | custom_components/timescaledb_recorder/backfill.py:179-201 | Each instant of the window is read by exactly one slice, each other by none |
| BackfillCycles.RunCycle | custom_components/timescaledb_recorder/backfill.py:107-204 | A cycle puts the tiles of its window and then DONE; without watermark or entities only DONE; stopped, a prefix; the retention gap is reported iff it moves the start |
| StatesWorkers.MainLoop.CheckOverflow | custom_components/timescaledb_recorder/states_worker.py:370-383 | The worker goes on to the live queue only if nothing was dropped, requests a backfill only with nothing in hand, and the no-loss invariant is kept |
| StatesWorkers.MainLoop.TakeFromLive | custom_components/timescaledb_recorder/states_worker.py:416-437 | The event taken is older than every event queued or dropped since, and the no-loss invariant is kept |
| StatesWorkers.MainLoop.TakeFromBackfill | custom_components/timescaledb_recorder/states_worker.py:385-414 | The sentinel leads to LIVE only with nothing owed, queued for the worker or in hand; a slice is taken whole; the no-loss invariant is kept |
| StatesWorkers.MainLoop.Flush | custom_components/timescaledb_recorder/states_worker.py:453-474 | With any steps of the other parties between its chunks, a flush puts the whole buffer into the table, requests the backfill only if it was for one, and keeps the no-loss invariant |
| StatesWorkers.MainLoop.LiveTurn | custom_components/timescaledb_recorder/states_worker.py:370-437 | A turn in INIT or LIVE with any steps of the other parties in between: an overflow ends it in BACKFILL with everything in hand stored, otherwise the oldest queued event is in hand or stored and an idle queue leaves nothing in hand |
| StatesWorkers.MainLoop.BackfillTurn | custom_components/timescaledb_recorder/states_worker.py:385-414 | A turn in BACKFILL with any steps of the other parties in between: a slice is stored whole, the sentinel ends the cycle with nothing owed |
| StatesWorkers.StatesWorker.DrainBackfill | custom_components/timescaledb_recorder/states_worker.py:385-414 | All rows before the sentinel are written, and one mark-dirty follows iff a rollup row was among them, from the earliest |
| StatesWorkers.StatesWorker.NoteRollupRows | custom_components/timescaledb_recorder/states_worker.py:567-572 | Keeps the earliest last_updated of the rollup entities' rows |
| Retry.CountersDecide | custom_components/timescaledb_recorder/retry.py:168-191 | The two poison counters decide exactly as the whole history does: a long enough streak of non-transient failures without a verdict |
| Retry.Retry | custom_components/timescaledb_recorder/retry.py:149-269 | on_poison is asked exactly at the end of each such streak; the stall is notified once, at the first attempt from the threshold on with no first verdict pending; on_recovery fires iff stalled, on success or giving up |
| RetryLaws.AtMostSixInARow | custom_components/timescaledb_recorder/retry.py:29-29 | With the default backoffs at most six non-transient failures in a row happen before a verdict |
| RetryLaws.FiveCanBeTooFew | custom_components/timescaledb_recorder/retry.py:29-29 | Five failures in a row can span less than the minute, so the bound is tight |
| RetryLaws.TransientStartsAfresh | custom_components/timescaledb_recorder/retry.py:168-174 | Between a transient error or veto and the next verdict lie the full number of attempts and the full time |
| RetryLaws.PoisonIsNotAStall | custom_components/timescaledb_recorder/retry.py:214-226 | A call that only fails non-transiently and is never vetoed is never reported as stalled |
| RetryLaws.OutageStallsAtThreshold | custom_components/timescaledb_recorder/retry.py:214-226 | A call that fails transiently only is reported at exactly the threshold |
| RetryLaws.WithoutHookNothingIsDropped | custom_components/timescaledb_recorder/retry.py:118-125 | Without on_poison nothing is ever given up on |
| RetryLaws.HistoryIsDetermined | custom_components/timescaledb_recorder/retry.py:149-269 | Outcomes, clock and policy leave the wrapper only one possible history |
| Flush.ChooseProbes | custom_components/timescaledb_recorder/states_worker.py:508-515 | The probes are the first rows of the first five entities, or none if the chunk has fewer |
| Flush.ProbeRows | custom_components/timescaledb_recorder/states_worker.py:503-530 | The first probe to land is reported; a veto means none of the five did before a transient error |
| Flush.InsertRows | custom_components/timescaledb_recorder/states_worker.py:480-501 | Every row of the chunk is stored or dead-lettered exactly once, the landed probe row is not inserted again, and only refused rows are dead-lettered |
| Flush.InsertChunk | custom_components/timescaledb_recorder/states_worker.py:453-530 | Nothing is dropped unless a probe landed or the chunk has too few entities to probe; a vetoed chunk stores and drops nothing |
| Flush.FlushRows | custom_components/timescaledb_recorder/states_worker.py:453-456 | When the flush is over every row was stored or dead-lettered exactly once, and only rows refused on their own were dead-lettered |

## Left out

- Home Assistant glue (config flow, sensors, issues, notifications, setup and unload): plumbing over libraries.
- Connections, timeouts, DDL, hypertables, compression, indexes and lock timeouts: the database's behaviour. A transaction is one atomic step.
- `canonical.py` and `migrations.py`: payloads are values, compared columns are one opaque text, and `modified_at` and the uuid are the only parts the comparison ignores.
- `backfill_gaps.py`: a command-line tool over float timestamps with a heuristic skip.
- The watchdog's respawn of a worker, and with it an old BACKFILL_DONE left in the shared queue.
- Reports, logging, coverage and fidelity queries, quarantine restore: read-only text or a copy back.
- Rounding of DOUBLE PRECISION, the numeric regex and time zones: values are exact reals, a sample is a number or not, and an integral is kept as value times microseconds.
- Calendar arithmetic: a day is 24 hours and a minute 60 seconds.
- The clock fallback of `_close_timestamp` and items of unknown registry or action: every item has its own stamp.
- When an item of the metadata worker is given up on is the retry wrapper's (`Retry`); its main loop takes that as given.
- PersistentQueues.PersistentQueue.Get: does not model a wake-up of the blocked consumer that is neither a put nor the shutdown's. A lone carriage return, which no record contains, does not end a line in the model.
- Shutdown in the middle of a flush, and the best-effort final flush.
- Filter changes, the recorder's retention and an empty entity set within the no-loss proof; the cycle itself models the last two.
- Upserts: a stored event is in the table, which of two writers' attributes it carries is not modelled.
- A registry that lists one id twice: the snapshot results are for listings without duplicates, as dictionaries keyed by id give them.
- When several open rows of an id share the newest start, change detection reads any of them; the model takes it as unchanged if one of them matches. Tables that satisfy the invariant have no such rows.
- MetaWorkers.MetaWorker.RunMainLoop: keeps the two loss counters per registry where the source keeps totals; a batch put onto a torn last line while the loop runs is left to `PersistentQueues.TornAppend`.
- Versions.BeforeIsTotal: a row keeps its ctid within the model of one statement sequence; PostgreSQL moves updated rows, and `Renumbering` and `MergeRenumbering` show what survives that.
- Ingestion.HandshakeHolds: the worker's check for leftover rows at BACKFILL_DONE is not a step, because the buffer is proved empty there.
- Flush.InsertChunk: one round stands for all attempts up to a poison verdict, and a wrapped row insert for all its retries; a chunk vetoed for ever is reported as not done after a given number of rounds.
- RollupDb.Database.RunJob: reads the clock through a function of the unit number.
