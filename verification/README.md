# Verified core of the EDR backend

This project models the parts of an endpoint detection and response backend whose
correctness depends on several functions, several stores or whole runs, and proves what
they are for. It is written in Dafny 4.11; `dafny verify dfyconfig.toml` checks all of it.

## What is modelled

**Storing, archiving, deleting and rolling up events** (`Telemetry`, `IngestMetadata`,
`StorageProtocol`, `StorageInvariants`, `StorageTheorems`, `Delivery`, `Workers`,
`MinuteRollup`). Storage workers claim an event id in an append-only registry and insert into ClickHouse under the
day's shared lock. A lifecycle worker exports a day without a lock, recounts under the
exclusive lock, records the archive as verified, later runs the rollup as a barrier, freezes
the day and drops its partition. A rollup worker refreshes dirty minutes from validated
messages and commits offsets afterwards. Each PostgreSQL transaction under a lock is one
step; the unlocked export reads and the reads and the write of a refresh are separate steps,
so everything interleaves. A ClickHouse insert can survive the rollback of its claim (a *torn*
row). The theorems are about every run: no stored event disappears except exactly the torn
rows of a dropped day; the row counts reveal before the drop whether there are any; a row of
the minute table on a frozen day never changes and is the aggregate of the archived events of
its minute, unless the minute had torn rows; an event missing from the rollup always has a
message on its way; and where none is, the dashboard summary read from the minute table is the
one counted from the stored events.

**Rollup arithmetic** (`RollupRanges`, `RollupTables`, `RollupSync`, `RollupTheorems`,
`RollupBackfill`, `RollupSummary`). Missing ranges, merging, frozen-day segments and chunked
backfill over minutes; hour-windowed queries that refine per-bucket recomputation of a minute and an hour
table; and the summary read from the minute table compared with counting the events.

**Paging over restored archives** (`Paging`, `PagingTheorems`). A bounded heap with bucket
skipping, merged with the hot rows, equals sorting everything and cutting out the page.

**The SQL statement splitter** (`SqlSplitter`, `SqlSplitterTheorems`). A five-mode lexer whose
results are fixpoints of splitting.

**The dashboard layout** (`LayoutPacking`, `LayoutTheorems`, `LayoutMerge`,
`LayoutRegistry`, `LayoutRoundTrip`, `LayoutService`). Gravity packing of widgets, reading
stored layouts of any quality, validation, optimistic revisions, and the save/load round trip.

**Detection** (`Detection`, `DetectionTheorems`). Rule loading, alerts, incidents and links as
separate transactions; replay, windows and order independence over whole runs.

**Endpoint risk** (`Risk`, `RiskTheorems`, `SqlRanking`, `RiskSql`). The ranking query sorts
endpoints by its own score and hands on only the best alerts and incidents; the score the
calculation shows for those few items is the one sorted by, and the one of all alerts.

`Basics` and `Sorting` hold what several of these share.

## How the model relates to the source

- Code that updates objects or accumulators is modelled by methods and classes; each method is
  proved equal to a specification function or against a property stated outright. The
  distributed protocol is a step system over values, because its point is interleaving.
- Times are integers: milliseconds in events, minutes in the rollup, seconds in incident
  windows, days in buckets. Times are not negative.
- A payload digest stands for the event's type, time and payload, so digests are taken to be
  injective. There is one lifecycle worker, as deployed.
- In the protocol the rollup is the set of events it counts (`reflected`). `MinuteRollup` carries
  the minute table through the same runs and proves that each of its rows is the aggregate of
  the reflected events of its minute. Paging relies on archive counts being exact and archived
  rows lying in their bucket, which is what `StorageTheorems.VerifiedArchiveIsComplete` gives for verified
  archives; detection relies on one event per event id, which is
  `Delivery.OneIdentityPerEventId`.
- `str.isspace`, `str.isalnum` and `str.isdigit` are parameters with the few facts the lexer
  needs. Python's `sorted` is a stable insertion sort, `heapq` is the sorted list of its rows,
  a dictionary that is only iterated is the list of its values in insertion order.
- Risk scores have two decimals in the database and count hundredths here.

Two documented intentions do not hold for every input, and the model keeps what the code does:

- A stored widget without a column takes its default column without clamping
  (`backend/dashboard_layouts.py:280`), so a layout that was read is not always stable.
  `LayoutRoundTrip.MergeIsStableIff` gives the exact condition,
  `LayoutService.ReadingIsNotAlwaysStable` an input.
- A partition drop can lose a torn row. `StorageTheorems.DropIsSafeIffCountsAgree` gives the
  exact condition, `StorageTheorems.ATornRowCanBeLost` a run.

## Model

| member | source | states |
|---|---|---|
| `IngestMetadata.MetadataRepository.HotIngestGuard` | backend/storage/postgres.py:1634-1699 | An ingest is admitted exactly when its day is not frozen; then its bucket is live without a verified archive, so that no claim of the day can succeed; no other bucket changes, and the table invariant and the restore state machine are kept |
| `IngestMetadata.MetadataRepository.RecordVerifiedArchive` | backend/storage/postgres.py:1826-1907 | An archive is recorded exactly for a live HOT row; from then on the bucket passes the claim's test exactly for cut-offs not before the verification, with equal counts on both rows; no other bucket changes, and invariant and state machine are kept |
| `IngestMetadata.MetadataRepository.ClaimPartitionDeletion` | backend/storage/postgres.py:1943-1992 | The claim succeeds exactly when a deletion is pending or every live bucket of the day is verified early enough with equal counts; every bucket of a claimed day is frozen with a verified archive of as many rows |
| `IngestMetadata.MetadataRepository.MarkPartitionDeleted` | backend/storage/postgres.py:1994-2004 | Afterwards no deletion of the day is pending, while the pending deletions of other days, the frozen days, the live buckets and all archives are what they were |
| `IngestMetadata.MetadataRepository.RequestRestoreOf` | backend/storage/postgres.py:2101-2154 | A restore is granted exactly when the bucket is restorable; a granted one has no live HOT row and is refused when repeated, a refused one changes nothing, and no other bucket changes |
| `IngestMetadata.MetadataRepository.MarkRestoredAt` | backend/storage/postgres.py:2156-2176 | Only a requested restore completes; the bucket has no live HOT row, cannot be requested again, and is due exactly from the given time on |
| `IngestMetadata.MetadataRepository.MarkFailed` | backend/storage/postgres.py:2178-2197 | Only a requested restore fails, and it can then be requested again; everything else stays |
| `IngestMetadata.MetadataRepository.Expire` | backend/storage/postgres.py:2199-2213 | Afterwards nothing is due; exactly what was due can be requested again, its number is returned, every other row stays, and the table is untouched exactly when nothing was due |
| `IngestMetadata.ApplyProgresses` | backend/storage/postgres.py:1634-2213 | Every transaction keeps the invariant and all five promises at once: no row is forgotten, statuses follow the state machine, dead HOT rows stay dead, frozen days stay frozen, their archives stay as they were |
| `IngestMetadata.ApplyKeepsInv` | backend/storage/postgres.py:1634-1699 | Every transaction keeps the table invariant: a live HOT row has an archive row in status ARCHIVED or none |
| `IngestMetadata.ApplyFollowsEdges` | backend/storage/postgres.py:2101-2213 | Every transaction moves an archive status only along the restore state machine, and a bucket whose HOT row is not live stays that way |
| `IngestMetadata.FrozenForever` | backend/storage/postgres.py:1943-2004 | A frozen day stays frozen |
| `IngestMetadata.VerificationAfter` | backend/storage/postgres.py:1689-1698 | Only an ingest into the bucket clears a verification and only a recorded export sets one |
| `IngestMetadata.LeavingArchivedIsFinal` | backend/storage/postgres.py:2101-2154 | In every run a live HOT row has status ARCHIVED, and once the status has left ARCHIVED no continuation makes the HOT row live again |
| `IngestMetadata.RunFollowsEdges` | backend/storage/postgres.py:2101-2213 | Any two consecutive states of any run are related by the restore state machine |
| `StorageInvariants.StepKeepsInv` | backend/archive_lifecycle.py:178-331 | Every step of ingest, export, verification, barrier, freeze, drop, refresh and restore keeps the invariant of the protocol |
| `StorageInvariants.VerifiedObjectIsComplete` | backend/archive_lifecycle.py:187-243 | Equal counts under the exclusive lock force the object written without a lock to be the whole bucket |
| `StorageTheorems.VerifiedArchiveIsComplete` | backend/archive_lifecycle.py:187-243 | In every reachable state the object of a verified bucket is exactly the bucket's settled rows, of the recorded number, until the day is dropped |
| `StorageTheorems.StepLosesOnlyTornRows` | backend/archive_lifecycle.py:298-331 | A step takes away a stored event exactly when it drops the partition of a torn row |
| `StorageTheorems.FrozenRowIsArchivedOrTorn` | backend/storage/postgres.py:1943-1992 | On a frozen day every row is either in a verified object or torn, never both |
| `StorageTheorems.NothingElseDisappears` | backend/archive_lifecycle.py:178-331 | In every run, with rolled-back claims included, an event that was stored is still in ClickHouse or in a verified object, or it was a torn row of a dropped day |
| `StorageTheorems.NoEventDisappears` | backend/archive_lifecycle.py:178-331 | When insert and claim commit together, what has once been stored stays stored through every continuation |
| `StorageTheorems.DropIsSafeIffCountsAgree` | backend/archive_lifecycle.py:298-331 | A drop loses nothing if and only if each bucket of the day has as many rows as its metadata records |
| `StorageTheorems.CountsRevealTornRows` | backend/storage/clickhouse.py:267-284 | On a frozen day a bucket's row count equals its recorded count exactly when none of its rows is torn |
| `StorageTheorems.ATornRowCanBeLost` | backend/workers.py:207-210 | A run in which the claim succeeds and the drop loses a row whose insert survived a rollback |
| `StorageTheorems.LateIngestBlocksClaim` | backend/storage/postgres.py:1943-1992 | In every run that stays behind the barrier and commits an ingest of the day, counted by a later flush or not, the deletion claim is refused and changes nothing |
| `StorageTheorems.UncountedRowBlocksClaim` | backend/storage/postgres.py:1943-1992 | A settled row that the rollup behind the barrier does not count makes the deletion claim fail |
| `StorageTheorems.FrozenRollupIsTheArchive` | backend/archive_lifecycle.py:298-331 | On a frozen day the rollup of a minute counts every archived event and otherwise only torn rows; in a minute without torn rows it counts exactly the archived events |
| `StorageTheorems.FrozenRollupNeverChanges` | backend/rollup.py:135-190 | No run changes the rollup or the archive of a frozen minute |
| `StorageTheorems.OneRowPerEventId` | backend/workers.py:190-227 | ClickHouse never holds two rows of one event id, whatever commits, rolls back, retries or is dropped |
| `StorageTheorems.RegistryIsAppendOnly` | backend/storage/postgres.py:1546-1596 | A claimed identity is never changed or removed |
| `Delivery.MoveKeepsInv` | backend/workers.py:64-139 | Every move of producers, storage workers, the rollup worker and the lifecycle worker keeps the invariant of the whole system, crashes included |
| `Delivery.StaleIsOutstanding` | backend/rollup.py:222-266 | A stored event of an unfrozen day that the rollup does not count has an uncommitted raw message, a failure record or an uncommitted validated message |
| `Delivery.QuiescentRollupIsExact` | backend/rollup.py:222-266 | In every reachable state, a minute of an unfrozen day with nothing outstanding is rolled up from exactly its stored events |
| `Delivery.CommittedPrefixIsSafe` | backend/workers.py:64-139 | Below a committed raw offset every message was published or has a failure record, an undecodable one the latter; below a committed validated offset every message is in the rollup or on a frozen day |
| `Delivery.OneIdentityPerEventId` | backend/workers.py:190-236 | All validated messages of one event id carry one identity |
| `Delivery.AnEventIsDelivered` | backend/workers.py:64-139 | A run that takes an event from the raw topic through ClickHouse and the validated topic into the rollup, after which nothing is outstanding |
| `MinuteRollup.WriteIsARefresh` | backend/rollup.py:77-190 | The write of a refresh step is what the synchronizer does to the minute table: exactly the open minutes of a range, or exactly the open keys, become the aggregate of what was read |
| `MinuteRollup.ReplacedIsRecomputed` | backend/storage/rollup.py:89-207 | The set of counted events after a refresh step is the one after recomputing the touched cells |
| `MinuteRollup.StepTracks` | backend/rollup.py:77-190 | Every step keeps every row of the minute table the aggregate of the reflected events of its minute |
| `MinuteRollup.MinuteRowIsReflected` | backend/rollup.py:77-190 | In every run every row of the minute table is the aggregate of the reflected events under its key |
| `MinuteRollup.FrozenRowIsTheArchive` | backend/archive_lifecycle.py:298-331 | In every run the row of a frozen minute without torn rows is the aggregate of the archived events of that minute |
| `MinuteRollup.FrozenRowNeverChanges` | backend/rollup.py:135-190 | No continuation of any run changes the row of a frozen minute |
| `MinuteRollup.QuiescentRowIsLive` | backend/rollup.py:222-266 | In every reachable state of the whole system, the row of a minute with nothing outstanding on an unfrozen day is what a live query returns |
| `MinuteRollup.QuietSummaryIsLive` | backend/storage/rollup.py:209-243 | Whatever the system did, the total, the counts per type and the time series read from the stored minute table of a quiet request equal counting the stored events |
| `Workers.RunWithRetries` | backend/workers.py:40-61 | The operation is called until it does not fail transiently, at most four times, with the configured delays in between |
| `Workers.RetriesStopAtTheDecidingCall` | backend/workers.py:40-61 | The number of calls is determined by the first call that does not fail transiently |
| `Workers.MessageWorker.RunOnce` | backend/workers.py:64-139 | An offset is committed exactly after success or a stored failure record and a commit that works, rewound when the record cannot be stored, and left alone when an unknown error or a failing commit escapes; every offset below the committed one is settled |
| `Workers.MessageWorker.Restart` | backend/workers.py:64-139 | A restarted worker resumes at the committed offsets and nothing settled is forgotten |
| `Workers.RollupWorker.Flush` | backend/rollup.py:246-266 | Offsets are committed only after the dirty buckets were refreshed, and only messages whose bucket was dirty count as refreshed; a failed refresh keeps buckets and offsets |
| `Workers.RollupWorker.CommitOffsets` | backend/rollup.py:250-255 | Each pending partition is committed just behind its last consumed message, and a failing commit leaves the rest pending |
| `Workers.RollupWorker.Quarantine` | backend/rollup.py:268-303 | A message that cannot be decoded is committed past exactly when everything before it was refreshed, it was recorded and the commit works; without a sink the worker raises where it stands, with a failing one it goes back |
| `Workers.RollupWorker.RunOnce` | backend/rollup.py:222-244 | Every decodable message below a committed offset was refreshed after it was consumed, over all partitions and failed flushes; a due or full batch is flushed |
| `Workers.RollupWorker.MarkDirty` | backend/rollup.py:232-237 | A consumed message makes its bucket dirty and its offset pending |
| `Workers.RollupWorker.Restart` | backend/rollup.py:193-220 | A restarted rollup worker resumes at the committed offsets and keeps the invariant |
| `RollupRanges.MissingRanges` | backend/storage/rollup.py:292-325 | The result lists exactly the uncovered minutes that the time range touches, sorted, disjoint and with gaps between |
| `RollupRanges.GroupMinutes` | backend/storage/rollup.py:315-325 | Runs of consecutive minutes become ranges of exactly those minutes |
| `RollupRanges.TidyIsUnique` | backend/storage/rollup.py:315-325 | Sorted, non-empty ranges with gaps are determined by the minutes they hold |
| `RollupRanges.BoundsAreTheTouchedMinutes` | backend/storage/rollup.py:478-483 | The coverage bounds are exactly the minutes that hold an instant of the time range |
| `RollupRanges.CoversIffNothingMissing` | backend/storage/rollup.py:327-344 | The counting check accepts a range exactly when none of its minutes is missing |
| `RollupRanges.MergeRanges` | tools/run_dashboard_rollup_worker.py:183-194 | Merging keeps exactly the minutes and leaves a gap between any two ranges |
| `RollupRanges.RefreshableSegments` | backend/rollup.py:380-400 | The segments hold exactly the minutes of the range on days that are not frozen |
| `RollupTables.QueryAt` | backend/storage/clickhouse.py:586-702 | Over aligned bounds the aggregation query yields for every asked bucket what the event table says, and nothing for other buckets |
| `RollupTables.ReplaceCellsAt` | backend/storage/rollup.py:150-207 | Replacing buckets changes exactly those buckets |
| `RollupTables.ReplaceRangeAt` | backend/storage/rollup.py:89-148 | Replacing a range makes exactly its buckets what the event table says |
| `RollupSync.DashboardRollups.RefreshBuckets` | backend/rollup.py:135-190 | Exactly the keys on unfrozen days and their hours become the aggregate of the events; everything else and the coverage stay as they were |
| `RollupSync.DashboardRollups.QueryWindows` | backend/rollup.py:155-166 | One query per hour collects complete rows for every key and every hour bucket |
| `RollupSync.DashboardRollups.QueryWindow` | backend/rollup.py:158-166 | A window adds rows of its own hour only, so no row comes from two windows |
| `RollupSync.DashboardRollups.RefreshRange` | backend/rollup.py:77-133 | Exactly the minutes of the range on unfrozen days and the hours they touch are refreshed, and exactly those minutes become covered; an empty range is refused |
| `RollupSync.DashboardRollups.ReplaceSegment` | backend/storage/rollup.py:89-148 | A replaced segment refreshes its minutes and the hours it touches and records its minutes as covered |
| `RollupSync.MinuteBounds` | backend/rollup.py:159-162 | The query bounds are the first and the last minute of the window's keys |
| `RollupBackfill.Backfill` | tools/run_dashboard_rollup_worker.py:102-138 | The calls are about exactly the missing minutes and the overlap (or the whole range), none is too long, and the tables are what these calls make of them although events and frozen days may differ from call to call; every minute of the range that no call found frozen is covered |
| `RollupBackfill.RefreshChunks` | tools/run_dashboard_rollup_worker.py:129-138 | The chunks of a range follow each other, none is too long, every minute of the range is in exactly one, and each is one refresh call in this order |
| `RollupBackfill.OpenRowsAreExact` | tools/run_dashboard_rollup_worker.py:129-138 | When frozen days only grow, a target minute whose day is open at the last call is exact for the events its last call found |
| `RollupBackfill.FrozenRowsStay` | backend/rollup.py:95-111 | When frozen days only grow, a day frozen at the first call keeps every row of both tables |
| `RollupBackfill.RowOfLastDue` | backend/rollup.py:95-111 | In either table, a row holds what the last call that had it due found |
| `RollupBackfill.TargetRanges` | tools/run_dashboard_rollup_worker.py:122-130 | The merged ranges hold exactly the minutes to refresh |
| `RollupBackfill.BackfilledRangeIsCovered` | backend/storage/rollup.py:327-344 | A range whose minutes are all covered passes the coverage check |
| `RollupTheorems.FrozenBucketsStay` | backend/rollup.py:142-150 | Refreshing buckets changes no row of a frozen day, in the minute or the hour table |
| `RollupTheorems.FrozenRangesStay` | backend/storage/clickhouse.py:705-721 | Refreshing a range changes no row of a frozen day although the hour bounds reach beyond the range |
| `RollupTheorems.DirtyBucketsSuffice` | backend/rollup.py:222-266 | An exact rollup is exact again after events changed, once the minutes of the changed events are refreshed |
| `RollupTheorems.TableFollowsReflected` | backend/storage/rollup.py:150-207 | A rollup table stays the aggregate of the events it reflects, whatever is refreshed from whatever state |
| `RollupSummary.RollupEqualsLive` | backend/storage/rollup.py:209-243 | Total, count per type and time series read from a faithful minute table equal counting the events by their own time over the covered minutes, with or without an endpoint |
| `RollupSummary.SameInterval` | backend/storage/clickhouse.py:509-553 | Binning the minute and binning the event's own time agree, for every supported interval |
| `RollupSummary.TotalIsSumOfTypes` | backend/storage/clickhouse.py:548-553 | The total is the sum of the counts per type |
| `RollupSummary.TotalIsSumOfSeries` | backend/storage/clickhouse.py:548-553 | The total is the sum of the time series |
| `RollupSummary.SelectedAreTheCoverageBounds` | backend/storage/rollup.py:231-235 | The query selects exactly the minutes of the coverage bounds |
| `RollupSummary.ExactIffAligned` | backend/storage/rollup.py:478-483 | The rollup counts the events of the requested time range, for all events and any endpoint filter, if and only if the range starts and ends on a minute |
| `Paging.TopOfPart` | backend/event_service.py:173-185 | Only the best rows of one source matter to the best rows of the whole |
| `PagingTheorems.Offer` | backend/event_service.py:226-231 | The bounded heap keeps the best rows |
| `PagingTheorems.SkippedBucketIsIrrelevant` | backend/event_service.py:447-456 | A bucket that cannot improve a full heap holds no row of the page window |
| `PagingTheorems.ExactCountIsExact` | backend/event_service.py:418-444 | The metadata count is used only where it is the number of matching rows |
| `PagingTheorems.ReadBucket` | backend/event_service.py:209-231 | Reading a bucket leaves the best rows in the heap and counts the matching ones |
| `PagingTheorems.ScanBuckets` | backend/event_service.py:203-232 | One pass with skipping finds the best rows and the number of all matching rows |
| `PagingTheorems.RestoredPage` | backend/event_service.py:187-232 | The result does not depend on the order of the buckets |
| `PagingTheorems.TopOfParts` | backend/event_service.py:173-185 | The best rows of hot and restored rows are the best of each source's best |
| `PagingTheorems.MergedPage` | backend/event_service.py:166-185 | With restored buckets the page and the total equal sorting and counting everything |
| `PagingTheorems.ListRows` | backend/event_service.py:129-185 | Unready archives and too large windows are refused; otherwise page and total equal sorting all matching rows and cutting out the page |
| `PagingTheorems.PagesTile` | backend/event_service.py:158-185 | The first pages, one after the other, are the sorted list up to there |
| `PagingTheorems.AllPagesShowEveryRow` | backend/event_service.py:158-185 | Pages up to the total show every row exactly once |
| `SqlSplitter.SplitSqlStatements` | backend/storage/migrations.py:12-102 | The loop returns the statements that the five reading modes define on the remaining text, or the error for an unterminated quote or comment |
| `SqlSplitter.StepInComment` | backend/storage/migrations.py:25-40 | A step inside a comment does not change the meaning of what is left |
| `SqlSplitter.StepInDollar` | backend/storage/migrations.py:41-49 | A step inside a dollar quote does not change the meaning of what is left |
| `SqlSplitter.StepInQuote` | backend/storage/migrations.py:50-59 | A step inside a quote does not change the meaning of what is left, doubled quotes included |
| `SqlSplitter.StepPlain` | backend/storage/migrations.py:61-95 | A step in plain text does not change the meaning of what is left |
| `SqlSplitter.StepOpeningDollar` | backend/storage/migrations.py:78-87 | An opening dollar quote starts exactly at a valid tag |
| `SqlSplitter.StepSemicolon` | backend/storage/migrations.py:88-95 | A semicolon ends the statement |
| `SqlSplitterTheorems.SplitReturnsProper` | backend/storage/migrations.py:12-102 | Every returned statement is stripped, not empty, free of comments and of semicolons outside quotes, and has no open quote |
| `SqlSplitterTheorems.JoinThenSplit` | backend/storage/migrations.py:12-102 | Any list of such statements joined by semicolons splits into exactly that list |
| `SqlSplitterTheorems.SplitIsAFixpoint` | backend/storage/migrations.py:12-102 | Each returned statement splits into itself and the joined result into the same list |
| `SqlSplitterTheorems.BlockCommentIsASpace` | backend/storage/migrations.py:67-72 | After clean text a block comment, with any comments nested in it, leaves one space or nothing and the text behind its end is read as if it came next; without an end the text is refused |
| `SqlSplitterTheorems.CommentsNest` | backend/storage/migrations.py:31-40 | Comments nest: the end of several open comments is the end of the inner ones followed by the end of the outer ones |
| `SqlSplitterTheorems.BlockEnds` | backend/storage/migrations.py:31-40 | Inside any number of nested comments reading resumes right behind the last end, or the text is refused if there is none |
| `LayoutPacking.PackWidgets` | backend/dashboard_layouts.py:285-299 | The packing loops compute the packed layout |
| `LayoutPacking.FirstRowLoop` | backend/dashboard_layouts.py:294-296 | The inner loop finds the least row that is free of everything placed before |
| `LayoutPacking.FirstRow` | backend/dashboard_layouts.py:294-296 | The row fits and no row above it does |
| `LayoutTheorems.EachLandsOnTheFirstFreeRow` | backend/dashboard_layouts.py:288-297 | Widgets are placed by row, column and registry order, and each lands on the first row free of those placed before it |
| `LayoutTheorems.PackSettles` | backend/dashboard_layouts.py:285-299 | After packing no two visible widgets overlap and none could move up to any higher row |
| `LayoutTheorems.PackOnlyMovesRows` | backend/dashboard_layouts.py:298-299 | Packing keeps every widget in its place in the list with column, size and visibility, and hidden ones entirely |
| `LayoutTheorems.PackFixesExactlySettled` | backend/dashboard_layouts.py:285-299 | Packing leaves a layout alone if and only if it has no overlap and nothing floats |
| `LayoutTheorems.PackIsIdempotent` | backend/dashboard_layouts.py:285-299 | Packing twice is packing once |
| `LayoutTheorems.PackEndsByHeights` | backend/dashboard_layouts.py:285-299 | No visible widget ends below the sum of the visible heights |
| `LayoutMerge.MergeStored` | backend/dashboard_layouts.py:104-138 | The loops compute the merged layout and whether it came from what was stored |
| `LayoutMerge.AcceptStored` | backend/dashboard_layouts.py:114-127 | The first usable element of each known widget is taken and coerced |
| `LayoutMerge.AddMissing` | backend/dashboard_layouts.py:130-134 | Exactly the widgets not seen are added at their defaults |
| `LayoutMerge.BoundedIntIsNearest` | backend/dashboard_layouts.py:278-283 | A stored number becomes the nearest allowed one, a missing one the default without clamping |
| `LayoutMerge.MergedIsSized` | backend/dashboard_layouts.py:269-283 | Before packing every registered widget is there once, within its size limits |
| `LayoutRegistry.V1IsARegistry` | backend/dashboard_layouts.py:33-57 | The first registry has distinct ids, consistent limits and maximum heights that fit the dashboard |
| `LayoutRegistry.V2IsARegistry` | backend/dashboard_layouts.py:59-70 | So has the second |
| `LayoutRegistry.V2DefaultsSettled` | backend/dashboard_layouts.py:59-70 | The current default layout has no overlap and no gap |
| `LayoutRoundTrip.MergeIsWellFormed` | backend/dashboard_layouts.py:104-138 | Whatever is stored, what is read has every widget once, sizes and rows within limits, and is settled |
| `LayoutRoundTrip.DumpedReadsBack` | backend/dashboard_layouts.py:104-138 | A complete stored layout reads back unchanged if and only if it lies in the grid and is settled |
| `LayoutRoundTrip.MergeIsStableIff` | backend/dashboard_layouts.py:278-283 | Storing what was read and reading it again changes nothing if and only if no used element lacks its column while its width overhangs the default column |
| `LayoutService.Validate` | backend/dashboard_layouts.py:141-170 | Validation reports the first problem in the order of the checks |
| `LayoutService.ValidationIsExact` | backend/dashboard_layouts.py:141-170 | Validation accepts exactly the layouts of known, distinct widgets within limits and grid whose visible widgets do not overlap |
| `LayoutService.DashboardLayoutService.Get` | backend/dashboard_layouts.py:184-209 | Loading shows the default, the merged stored layout, or refuses |
| `LayoutService.DashboardLayoutService.Put` | backend/dashboard_layouts.py:211-240 | Saving validates, merges, checks the revision and stores exactly what it returns |
| `LayoutService.DashboardLayoutService.Delete` | backend/dashboard_layouts.py:242-250 | Deleting returns what loading shows afterwards |
| `LayoutService.PutKeepsWhatWasSubmitted` | backend/dashboard_layouts.py:172-177 | Saving keeps every submitted widget with column, size and visibility, adds the unknown ones behind and settles the rows |
| `LayoutService.GetAfterPut` | backend/dashboard_layouts.py:184-240 | Loading after a save shows exactly what the save returned, and other users see what they saw |
| `LayoutService.SecondPutConflicts` | backend/storage/postgres.py:223-288 | Of two saves that expect the same revision, of whatever layout versions, the second is refused and changes nothing |
| `LayoutService.PutIsIdentityIff` | backend/dashboard_layouts.py:172-177 | A save returns the submitted layout untouched if and only if it is complete and settled |
| `LayoutService.DefaultsReadBack` | backend/dashboard_layouts.py:95-101 | The current default layout can be stored and read back unchanged |
| `LayoutService.ReadingIsNotAlwaysStable` | backend/dashboard_layouts.py:278-283 | A stored widget without a column whose second reading differs from the first |
| `Detection.LoadDirectory` | backend/rule_loader.py:112-133 | Rules are accepted exactly when identities are distinct, each code has one enabled version, and each correlation key one window |
| `Detection.CheckWindows` | backend/rule_loader.py:120-132 | The window check accepts exactly the rule sets with one window per key |
| `Detection.DetectionStore.InsertIfAbsent` | backend/storage/postgres.py:842-897 | An alert is stored once per event and rule version and keeps its first detection time; nothing else changes |
| `Detection.DetectionStore.Upsert` | backend/storage/postgres.py:1157-1192 | A known incident becomes the least one that covers both what it was and the alert's end, severity and detection, and keeps status, closing time, mark and first detection; a new one is open with the alert's values; nothing else changes, and keys and closing times stay consistent |
| `Detection.DetectionStore.Link` | backend/storage/postgres.py:1194-1203 | The pair is linked, no other link appears, and linking again changes nothing |
| `Detection.DetectionStore.CloseExpiredIncidents` | backend/storage/postgres.py:1205-1216 | No expirable incident is left; exactly the open incidents without a manual status whose window has ended are closed, at their end, with their evidence kept, and counted |
| `Detection.DetectionStore.UpdateStatus` | backend/storage/postgres.py:1218-1271 | The incident has the status, with its evidence kept; a changed status is safe from every later expiry, an equal one leaves no mark, a missing incident is reported, and nothing else changes |
| `Detection.DetectionStore.Process` | backend/workers.py:276-315 | A message performs exactly the transactions of its matching rules, in order, and leaves the alert, the incident and the link of each; nothing stored is taken back |
| `Detection.ApplyKeepsStoreInv` | backend/storage/postgres.py:1157-1271 | Every transaction keeps keys referring to stored rows, closed incidents with a closing time not after their end, and nothing stored is taken back |
| `DetectionTheorems.RepeatIsNoOp` | backend/workers.py:292-315 | A transaction that occurred anywhere in a run changes nothing but a time stamp when it is issued again at the end |
| `DetectionTheorems.ReplayIsNoOp` | backend/workers.py:276-315 | Once all transactions of a message have occurred, in one attempt or several, processing it again changes nothing but time stamps |
| `DetectionTheorems.RaisingAgainKeepsStampIff` | backend/storage/postgres.py:1166-1174 | The time stamp stays, too, if and only if it is not older than the alert's detection |
| `DetectionTheorems.StatusIsLeftAlone` | backend/storage/postgres.py:1157-1216 | The worker never changes the status of an existing incident, and expiry never one that was set by hand |
| `DetectionTheorems.InWindow` | backend/detection.py:54-58 | The window starts at a multiple of its length and holds the event |
| `DetectionTheorems.ReachedIncidents` | backend/detection.py:54-112 | In every reachable state the incidents of one endpoint and key have disjoint windows, and every linked alert's event lies in its incident's window |
| `DetectionTheorems.SharedIncidentIff` | backend/detection.py:101-110 | Two matches share an incident if and only if endpoint and key agree and the events fall into the same window |
| `DetectionTheorems.OrderDoesNotMatter` | backend/storage/postgres.py:1157-1192 | Two runs of the same transactions in different orders, with one detection time per alert, store the same alerts and links and the same incidents with equal end, severity and last detection |
| `DetectionTheorems.LinksAreTheLinkTransactions` | backend/storage/postgres.py:1194-1203 | The links are exactly those of the link transactions of the run, in whatever order |
| `DetectionTheorems.RaisedAreTheRaiseTransactions` | backend/storage/postgres.py:1157-1192 | An incident was raised for an alert exactly when some transaction of the run did so |
| `DetectionTheorems.AlertsComeFromInserts` | backend/storage/postgres.py:842-897 | Every stored alert carries the detection time and severity of an insert of its key in the run |
| `Risk.CalculateEndpointRisk` | backend/policy/risk.py:70-161 | The score is the capped weighted sum, lies between 0 and 100 and is the sum of its factors |
| `Risk.PickRepresentatives` | backend/policy/risk.py:76-85 | The loop picks the representatives of the rules |
| `Risk.Cap` | backend/policy/risk.py:131-150 | The capping loop returns the cut factors and their sum |
| `Risk.CappedTotal` | backend/policy/risk.py:131-150 | The cut factors add up to the sum of the candidates or to 100 |
| `Risk.WeightedRoundsHalfUp` | backend/policy/risk.py:56-57 | The contribution is the integer nearest to the weighted score, halves going up |
| `RiskTheorems.RepresentativesAre` | backend/policy/risk.py:76-85 | Every rule version with an alert has exactly one representative, its strongest alert |
| `RiskSql.SqlAgreesWithPython` | backend/storage/postgres.py:712-781 | The ranked query gives every endpoint the score of the calculation over all its alerts and incidents |
| `RiskSql.ShownScoreIsTheSortedScore` | backend/api_services.py:217-239 | The calculation over the three alerts and two incidents the query hands on gives the score the query sorts by, and the same factors as over all alerts and incidents |
| `RiskSql.ItemsAreTheFirst` | backend/storage/postgres.py:730-770 | The alerts and incidents the query hands on are the first three and the first two of the calculation's own rankings |
| `SqlRanking.RankedItemsAreTheFirst` | backend/storage/postgres.py:730-770 | The rows whose row number is at most k, aggregated by row number, are the first k rows of the sorted list |
| `RiskTheorems.OrderOfAlertsDoesNotMatter` | backend/policy/risk.py:70-161 | The score does not depend on the order of the alerts |
| `RiskTheorems.MoreNeverLowersTheScore` | backend/policy/risk.py:70-161 | Another alert or incident never lowers the score |
| `RiskTheorems.TheTwoGravestIncidentsCount` | backend/policy/risk.py:113-129 | The incidents that become factors are the two gravest |
| `RiskTheorems.HighestHeadsTheRanking` | backend/policy/risk.py:152 | The highest score shown is the score of the first ranked alert |

## Left out

- The HTTP routes, data transfer objects, settings and authentication: they pass values on.
- The SQL and Kafka texts: each repository call is modelled by its effect on rows or logs.
- The loops of the lifecycle worker (`backend/archive_lifecycle.py:169-331`) are steps of the protocol, so that ingest can interleave; the order in which a pass visits buckets, its limits and its candidate cut-off dates are not modelled, which allows more runs.
- Checksum, size and path columns of an archive are folded into its verification; the Parquet encoding is not modelled.
- A raw message may be committed once any copy of its event has been published, which allows more runs than the worker makes.
- `IngestMetadataRepository.upsert` is used for seeding only and is not modelled.
- `ArchiveService.start_restore`: the restore transitions it drives are modelled, the assembled response is not.
- A rollup message that cannot be decoded and whose flush raised inside the periodic reconciliation: the commit guarantee is about decodable messages.
- RollupTables.QueryAt: the dimension rows of an hour are an arbitrary function of its events, because the source keeps only the most frequent values; agreement of the top lists with the live ones is not claimed.
- RollupBackfill.Backfill: the consumer's turns between two chunks (`after_chunk`) are not part of it.
- MinuteRollup.MinuteRowIsReflected: only the minute table is carried through the runs of the protocol; the hour table is treated per refresh and per backfill.
- PagingTheorems.ListRows: row ids are ordered as numbers; that the database orders identifiers the same way is assumed.
- DetectionTheorems.OrderDoesNotMatter: the first detection time, title and description of an incident are those of its first alert and depend on the order.
- Detection.DetectionStore.Process: rule conditions are an arbitrary predicate on events; alert status changes and audit rows are not modelled.
- LayoutRegistry.V2DefaultsSettled: the default layout of the superseded version 1 is not checked for gaps.
- `_RestoredDashboardAccumulator`, DNS correlation, investigation graph and topology: aggregation with shallow invariants.
- The Windows agent, its event buffer included, and the frontend.
- Times before 1970 and the rounding of floating-point time stamps.
