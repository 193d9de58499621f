/** The storage protocol as a step system: ingest, lock-free export, verification, the
    rollup barrier, partition deletion and rollup refreshes, interleaved in any order.

    A step is one PostgreSQL transaction or one ClickHouse or S3 call. An ingest holds the
    shared lock of its day from the ClickHouse insert to the PostgreSQL commit; a refresh
    holds the rollup lock and the shared lock of every day it touches from its first read to
    its write; verification and the deletion claim need the day's exclusive lock. */
module StorageProtocol {
  import opened Telemetry
  import M = IngestMetadata

  /** What one rollup refresh replaces: a range of minutes of every endpoint, or a set of keys. */
  datatype Scope = Minutes(from: nat, to: nat) | Keys(keys: set<Key>)

  predicate InScope(scope: Scope, k: Key) {
    match scope
    case Minutes(from, to) => from <= k.minute < to
    case Keys(keys) => k in keys
  }

  /** The days whose shared lock the refresh takes. */
  predicate HoldsDay(scope: Scope, day: nat) {
    match scope
    case Minutes(from, to) => from < to && DayOfMinute(from) <= day <= DayOfMinute(to - 1)
    case Keys(keys) => exists k :: k in keys && DayOfMinute(k.minute) == day
  }

  /** Every hour the scope reaches into has been read from ClickHouse. */
  ghost predicate AllRead(scope: Scope, hours: set<nat>) {
    match scope
    case Minutes(from, to) => forall m: nat {:trigger m / HOUR} :: from <= m < to ==> m / HOUR in hours
    case Keys(keys) => forall k :: k in keys ==> k.minute / HOUR in hours
  }

  function DayScope(day: nat): Scope { Minutes(day * MINUTES_PER_DAY, (day + 1) * MINUTES_PER_DAY) }

  datatype Owner = Barrier | Flush | Backfill

  datatype Refresh = NoRefresh | Refreshing(owner: Owner, scope: Scope, hours: set<nat>, snap: set<Event>)

  /** Where the one lifecycle worker is. */
  datatype Phase =
    | Idle
    | Counted(bucket: Bucket, count: nat)
    | Exported(bucket: Bucket, count: nat)
    | BarrierRunning(day: nat)
    | BarrierPassed(day: nat)
    | Claimed(day: nat)
    | Dropped(day: nat)

  /** `rows` is the ClickHouse table by row number, so that it could hold one event twice.
      `reflected` is the set of events the stored minute rollup counts. `torn`, `gone` and
      `lost` are history: rows whose PostgreSQL transaction was rolled back after the
      ClickHouse insert and that no later verification or guarded ingest of the bucket has
      covered, the days dropped so far, and the torn rows that went with them. */
  datatype Db = Db(
    rows: map<nat, Event>, nextRow: nat,
    registry: map<int, Event>, pending: map<int, Event>,
    meta: M.Meta, objects: map<Bucket, set<Event>>,
    reflected: set<Event>, refresh: Refresh, phase: Phase,
    torn: set<Event>, gone: set<nat>, lost: set<Event>)

  const INIT := Db(map[], 0, map[], map[], M.EMPTY, map[], {}, NoRefresh, Idle, {}, {}, {})

  function Table(db: Db): set<Event> { set i | i in db.rows :: db.rows[i] }

  function InFlight(db: Db): set<Event> { set id | id in db.pending :: db.pending[id] }

  /** The rows `archive_count` counts and `archive_row_batches` streams. */
  function BucketRows(db: Db, b: Bucket): set<Event> { set e | e in Table(db) && BucketOf(e) == b }

  predicate FrozenDay(db: Db, day: nat) { M.Frozen(db.meta, day) }

  /** Nobody holds the day's shared lock, so its exclusive lock can be taken. */
  predicate Unlocked(db: Db, day: nat) {
    && (forall id :: id in db.pending ==> DayOf(db.pending[id]) != day)
    && (db.refresh.Refreshing? ==> !HoldsDay(db.refresh.scope, day))
  }

  datatype Step =
    | StartInsert(event: Event)
    | CommitInsert(id: int)
    | AbortInsert(id: int)
    | ClaimExisting(event: Event)
    | CountBucket(bucket: Bucket)
    | WriteObject
    | VerifyArchive(at: int)
    | StartBarrier(day: nat)
    | ClaimDay(cutoff: int)
    | DropPartition
    | MarkDropped
    | LifecycleReset
    | BeginRefresh(owner: Owner, scope: Scope)
    | ReadHours(hours: set<nat>)
    | WriteRefresh
    | AbortRefresh
    | RestoreOp(op: M.Op)

  ghost predicate Enabled(db: Db, step: Step) {
    match step
    case StartInsert(e) =>
      && e.id !in db.registry && e.id !in db.pending && !FrozenDay(db, DayOf(e))
      && (forall x :: x in Table(db) ==> x.id != e.id)
    case CommitInsert(id) => id in db.pending
    case AbortInsert(id) => id in db.pending
    case ClaimExisting(e) => e.id !in db.registry && e.id !in db.pending && e in Table(db)
    case CountBucket(b) =>
      && db.phase == Idle && M.Live(db.meta, b) && 0 < |BucketRows(db, b)|
      && !(M.Verified(db.meta, b) && db.meta.s3[b].count == db.meta.hot[b].count)
    case WriteObject => db.phase.Counted? && |BucketRows(db, db.phase.bucket)| == db.phase.count
    case VerifyArchive(at) =>
      && db.phase.Exported? && Unlocked(db, db.phase.bucket.day) && M.Live(db.meta, db.phase.bucket)
      && |BucketRows(db, db.phase.bucket)| == db.phase.count
    case StartBarrier(day) => db.phase == Idle && db.refresh == NoRefresh
    case ClaimDay(cutoff) => db.phase.BarrierPassed? && Unlocked(db, db.phase.day)
    case DropPartition => db.phase.Claimed?
    case MarkDropped => db.phase.Dropped?
    case LifecycleReset => true
    case BeginRefresh(owner, scope) => db.refresh == NoRefresh && owner != Barrier
    case ReadHours(hours) => db.refresh.Refreshing?
    case WriteRefresh => db.refresh.Refreshing? && AllRead(db.refresh.scope, db.refresh.hours)
    case AbortRefresh => db.refresh.Refreshing?
    case RestoreOp(op) => op.RequestRestore? || op.MarkRestored? || op.MarkRestoreFailed? || op.ExpireRestores?
  }

  function WithoutBucket(events: set<Event>, b: Bucket): set<Event> { set e | e in events && BucketOf(e) != b }

  function WithoutDay(events: set<Event>, day: nat): set<Event> { set e | e in events && DayOf(e) != day }

  /** The rows one ClickHouse query of a refresh returns; frozen days are not asked for. */
  function HourRows(db: Db, scope: Scope, hours: set<nat>): set<Event> {
    set e | e in Table(db) && HourOf(e) in hours && InScope(scope, KeyOf(e)) && !FrozenDay(db, DayOf(e))
  }

  /** The stored rollup after the refreshed keys have been replaced by the snapshot. */
  function Replaced(db: Db, scope: Scope, snap: set<Event>): set<Event> {
    (set e | e in db.reflected && !(InScope(scope, KeyOf(e)) && !FrozenDay(db, DayOf(e)))) + snap
  }

  ghost function Apply(db: Db, step: Step): Db
    requires Enabled(db, step)
  {
    match step
    case StartInsert(e) =>
      db.(rows := db.rows[db.nextRow := e], nextRow := db.nextRow + 1, pending := db.pending[e.id := e])
    case CommitInsert(id) =>
      var e := db.pending[id];
      db.(registry := db.registry[id := e], pending := db.pending - {id},
          meta := M.Apply(db.meta, M.Ingest(BucketOf(e))), torn := WithoutBucket(db.torn, BucketOf(e)))
    case AbortInsert(id) => db.(pending := db.pending - {id}, torn := db.torn + {db.pending[id]})
    case ClaimExisting(e) => db.(registry := db.registry[e.id := e])
    case CountBucket(b) => db.(phase := Counted(b, |BucketRows(db, b)|))
    case WriteObject =>
      var b := db.phase.bucket;
      db.(objects := db.objects[b := BucketRows(db, b)], phase := Exported(b, db.phase.count))
    case VerifyArchive(at) =>
      var b := db.phase.bucket;
      db.(meta := M.Apply(db.meta, M.RecordVerified(b, db.phase.count, at)),
          torn := WithoutBucket(db.torn, b), phase := Idle)
    case StartBarrier(day) =>
      db.(refresh := Refreshing(Barrier, DayScope(day), {}, {}), phase := BarrierRunning(day))
    case ClaimDay(cutoff) =>
      var day := db.phase.day;
      var claimed := M.DeletionPending(db.meta, day) || M.DeletionEligible(db.meta, day, cutoff);
      db.(meta := M.Apply(db.meta, M.ClaimDeletion(day, cutoff)), phase := if claimed then Claimed(day) else Idle)
    case DropPartition =>
      var day := db.phase.day;
      db.(rows := map i | i in db.rows && DayOf(db.rows[i]) != day :: db.rows[i],
          torn := WithoutDay(db.torn, day), gone := db.gone + {day},
          lost := db.lost + (set e | e in db.torn && DayOf(e) == day), phase := Dropped(day))
    case MarkDropped => db.(meta := M.Apply(db.meta, M.MarkDeleted(db.phase.day)), phase := Idle)
    case LifecycleReset =>
      db.(phase := Idle,
          refresh := if db.refresh.Refreshing? && db.refresh.owner == Barrier then NoRefresh else db.refresh)
    case BeginRefresh(owner, scope) => db.(refresh := Refreshing(owner, scope, {}, {}))
    case ReadHours(hours) =>
      var r := db.refresh;
      db.(refresh := r.(hours := r.hours + hours, snap := r.snap + HourRows(db, r.scope, hours)))
    case WriteRefresh =>
      var r := db.refresh;
      db.(reflected := Replaced(db, r.scope, r.snap), refresh := NoRefresh,
          phase := if r.owner == Barrier && db.phase.BarrierRunning? then BarrierPassed(db.phase.day) else db.phase)
    case AbortRefresh =>
      db.(refresh := NoRefresh, phase := if db.refresh.owner == Barrier then Idle else db.phase)
    case RestoreOp(op) => db.(meta := M.Apply(db.meta, op))
  }

  /** A run is a list of steps, each enabled where it is taken. */
  ghost predicate IsRun(db: Db, steps: seq<Step>)
    decreases |steps|
  {
    steps != [] ==> Enabled(db, steps[0]) && IsRun(Apply(db, steps[0]), steps[1..])
  }

  ghost function After(db: Db, steps: seq<Step>): Db
    requires IsRun(db, steps)
    decreases |steps|
  {
    if steps == [] then db else After(Apply(db, steps[0]), steps[1..])
  }
}
