/** What every step of the storage protocol keeps. The invariant is a conjunction of groups;
    each group has its own preservation lemma. */
module StorageInvariants {
  import opened Basics
  import opened Telemetry
  import opened StorageProtocol
  import M = IngestMetadata

  /** ClickHouse holds at most one row per event id. */
  ghost predicate UniqueRows(db: Db) {
    && (forall i :: i in db.rows ==> i < db.nextRow)
    && (forall i, j :: i in db.rows && j in db.rows && db.rows[i].id == db.rows[j].id ==> i == j)
  }

  /** A row in flight belongs to the one uncommitted claim of its id, on a day that is not frozen. */
  ghost predicate PendingInv(db: Db) {
    forall id :: id in db.pending ==>
      && db.pending[id].id == id && db.pending[id] in Table(db)
      && !FrozenDay(db, DayOf(db.pending[id])) && id !in db.registry
  }

  ghost predicate RowsInv(db: Db) {
    UniqueRows(db) && PendingInv(db) && forall id :: id in db.registry ==> db.registry[id].id == id
  }

  /** Every row that is neither torn nor in flight was guarded, so its bucket has a HOT row. */
  ghost predicate TornInv(db: Db) {
    && db.torn <= Table(db) && db.torn !! InFlight(db)
    && (forall e :: e in Table(db) && e !in db.torn && e !in InFlight(db) ==> BucketOf(e) in db.meta.hot)
  }

  /** A row whose bucket would let the deletion claim succeed. */
  predicate Settled(db: Db, e: Event) {
    e in Table(db) && e !in db.torn && e !in InFlight(db) && M.Verified(db.meta, BucketOf(e))
  }

  function SettledRows(db: Db, b: Bucket): set<Event> { set e | e in Table(db) && BucketOf(e) == b && Settled(db, e) }

  /** A verified object is exactly the settled rows of its bucket, until the day is dropped. */
  ghost predicate ArchiveInv(db: Db) {
    && (forall b, e :: b in db.objects && e in db.objects[b] ==> BucketOf(e) == b)
    && (forall b :: M.Verified(db.meta, b) ==> b in db.objects && |db.objects[b]| == db.meta.s3[b].count)
    && (forall b :: M.Verified(db.meta, b) && b.day !in db.gone ==>
          db.objects[b] == SettledRows(db, b))
  }

  ghost predicate PhaseInv(db: Db) {
    && (db.phase.Counted? || db.phase.Exported? ==>
          M.Live(db.meta, db.phase.bucket) && !M.Verified(db.meta, db.phase.bucket))
    && (db.phase.Exported? ==>
          && db.phase.bucket in db.objects && |db.objects[db.phase.bucket]| == db.phase.count
          && db.objects[db.phase.bucket] <= BucketRows(db, db.phase.bucket))
    && (db.phase.Claimed? || db.phase.Dropped? ==> FrozenDay(db, db.phase.day))
    && (db.phase.BarrierRunning? <==> db.refresh.Refreshing? && db.refresh.owner == Barrier)
    && (db.phase.BarrierRunning? ==> db.refresh.scope == DayScope(db.phase.day))
  }

  ghost predicate GoneInv(db: Db) {
    && (forall day :: day in db.gone ==> FrozenDay(db, day))
    && (forall e :: e in Table(db) ==> DayOf(e) !in db.gone)
    && (forall e :: e in db.lost ==> DayOf(e) in db.gone)
  }

  /** The stored rollup counts only rows that exist, and an unfinished refresh has read at
      least what the rollup already counts. */
  ghost predicate RollupInv(db: Db) {
    && (forall e :: e in db.reflected && !FrozenDay(db, DayOf(e)) ==> e in Table(db))
    && (db.refresh.Refreshing? ==>
          && (forall e :: e in db.refresh.snap ==>
                e in Table(db) && InScope(db.refresh.scope, KeyOf(e)) && !FrozenDay(db, DayOf(e)))
          && (forall e :: e in db.reflected && !FrozenDay(db, DayOf(e)) && HourOf(e) in db.refresh.hours ==>
                InScope(db.refresh.scope, KeyOf(e)) ==> e in db.refresh.snap))
  }

  /** Once the barrier has read an hour, every settled row of that hour is in its snapshot,
      and after its write in the stored rollup. */
  ghost predicate BarrierInv(db: Db) {
    && (db.phase.BarrierRunning? && db.refresh.Refreshing? ==> forall e ::
          Settled(db, e) && DayOf(e) == db.phase.day && !FrozenDay(db, db.phase.day) && HourOf(e) in db.refresh.hours
          ==> e in db.refresh.snap)
    && (db.phase.BarrierPassed? ==> forall e ::
          Settled(db, e) && DayOf(e) == db.phase.day && !FrozenDay(db, db.phase.day) ==> e in db.reflected)
  }

  predicate InVerifiedObject(db: Db, e: Event) {
    M.Verified(db.meta, BucketOf(e)) && BucketOf(e) in db.objects && e in db.objects[BucketOf(e)]
  }

  /** On a frozen day the rollup counts every archived event and nothing but archived and torn ones. */
  ghost predicate FrozenInv(db: Db) {
    && (forall e :: FrozenDay(db, DayOf(e)) && InVerifiedObject(db, e) ==> e in db.reflected)
    && (forall e :: FrozenDay(db, DayOf(e)) && e in db.reflected ==>
          InVerifiedObject(db, e) || e in db.torn || e in db.lost)
  }

  ghost predicate Inv(db: Db) {
    && M.Inv(db.meta) && RowsInv(db) && TornInv(db) && ArchiveInv(db) && PhaseInv(db)
    && GoneInv(db) && RollupInv(db) && BarrierInv(db) && FrozenInv(db)
  }

  // How one step changes what the groups talk about.

  lemma TableAfter(db: Db, step: Step)
    requires UniqueRows(db) && Enabled(db, step)
    ensures Table(Apply(db, step)) ==
      if step.StartInsert? then Table(db) + {step.event}
      else if step.DropPartition? then WithoutDay(Table(db), db.phase.day) else Table(db)
  {
    var db' := Apply(db, step);
    if step.StartInsert? {
      assert db'.rows[db.nextRow] == step.event;
      forall e | e in Table(db) ensures e in Table(db') {
        var i :| i in db.rows && db.rows[i] == e;
        assert db'.rows[i] == e;
      }
    } else if step.DropPartition? {
      forall e | e in WithoutDay(Table(db), db.phase.day) ensures e in Table(db') {
        var i :| i in db.rows && db.rows[i] == e;
        assert db'.rows[i] == e;
      }
    }
  }

  lemma InFlightAfter(db: Db, step: Step)
    requires PendingInv(db) && Enabled(db, step)
    ensures InFlight(Apply(db, step)) ==
      if step.StartInsert? then InFlight(db) + {step.event}
      else if step.CommitInsert? || step.AbortInsert? then InFlight(db) - {db.pending[step.id]} else InFlight(db)
  {
    var db' := Apply(db, step);
    if step.StartInsert? {
      assert db'.pending[step.event.id] == step.event;
      forall e | e in InFlight(db) ensures e in InFlight(db') {
        var i :| i in db.pending && db.pending[i] == e;
        assert db'.pending[i] == e;
      }
    } else if step.CommitInsert? || step.AbortInsert? {
      forall e | e in InFlight(db) - {db.pending[step.id]} ensures e in InFlight(db') {
        var i :| i in db.pending && db.pending[i] == e;
        assert db'.pending[i] == e;
      }
    }
  }

  /** The metadata transaction a step performs, if any. */
  function MetaOp(db: Db, step: Step): Option<M.Op> {
    match step
    case CommitInsert(id) => if id in db.pending then Some(M.Ingest(BucketOf(db.pending[id]))) else None
    case VerifyArchive(at) =>
      if db.phase.Exported? then Some(M.RecordVerified(db.phase.bucket, db.phase.count, at)) else None
    case ClaimDay(cutoff) => if db.phase.BarrierPassed? then Some(M.ClaimDeletion(db.phase.day, cutoff)) else None
    case MarkDropped => if db.phase.Dropped? then Some(M.MarkDeleted(db.phase.day)) else None
    case RestoreOp(op) => Some(op)
    case _ => None
  }

  lemma MetaAfter(db: Db, step: Step)
    requires Enabled(db, step)
    ensures Apply(db, step).meta == if MetaOp(db, step).None? then db.meta else M.Apply(db.meta, MetaOp(db, step).value)
  {
  }

  /** Only the deletion claim freezes a day, and only the one the lifecycle worker is at. */
  lemma FrozenAfter(db: Db, step: Step, day: nat)
    requires Enabled(db, step)
    ensures FrozenDay(db, day) ==> FrozenDay(Apply(db, step), day)
    ensures !FrozenDay(db, day) && FrozenDay(Apply(db, step), day) ==>
      step.ClaimDay? && db.phase.BarrierPassed? && db.phase.day == day && M.DeletionEligible(db.meta, day, step.cutoff)
  {
    MetaAfter(db, step);
    if MetaOp(db, step).Some? {
      var op := MetaOp(db, step).value;
      if M.Frozen(db.meta, day) {
        M.FrozenForever(db.meta, op, day);
      } else if M.Frozen(M.Apply(db.meta, op), day) {
        M.OnlyClaimsFreeze(db.meta, op, day);
      }
    }
  }

  /** Only a commit clears a verification, and only a verification sets one. */
  lemma VerifiedAfter(db: Db, step: Step, b: Bucket)
    requires M.Inv(db.meta) && PhaseInv(db) && Enabled(db, step)
    ensures M.Verified(Apply(db, step).meta, b) ==>
      M.Verified(db.meta, b) || (step.VerifyArchive? && b == db.phase.bucket)
    ensures M.Verified(db.meta, b) && !M.Verified(Apply(db, step).meta, b) ==>
      step.CommitInsert? && b == BucketOf(db.pending[step.id])
    ensures M.Verified(db.meta, b) && M.Verified(Apply(db, step).meta, b) ==>
      Apply(db, step).meta.s3[b].count == db.meta.s3[b].count
    ensures b in db.meta.hot ==> b in Apply(db, step).meta.hot
  {
    MetaAfter(db, step);
    if MetaOp(db, step).Some? { M.VerificationAfter(db.meta, MetaOp(db, step).value, b); }
  }

  lemma FreezeIsLocked(db: Db, step: Step, day: nat)
    requires M.Inv(db.meta) && Enabled(db, step) && !FrozenDay(db, day) && FrozenDay(Apply(db, step), day)
    ensures Unlocked(db, day)
    ensures forall b :: b in db.meta.hot && b.day == day ==> M.Verified(db.meta, b)
    ensures Apply(db, step) == db.(meta := Apply(db, step).meta, phase := Apply(db, step).phase)
  {
    FrozenAfter(db, step, day);
    forall b | b in db.meta.hot && b.day == day ensures M.Verified(db.meta, b) {
      assert !db.meta.hot[b].isDelete;
      assert M.VerifiedBy(db.meta, b, step.cutoff);
    }
  }

  lemma NoIngestOnFrozenDay(db: Db, step: Step, day: nat)
    requires M.Inv(db.meta) && Enabled(db, step) && !FrozenDay(db, day)
    requires
      || (step.StartInsert? && DayOf(step.event) == day)
      || exists id :: id in db.pending && DayOf(db.pending[id]) == day
    ensures !FrozenDay(Apply(db, step), day)
  {
    FrozenAfter(db, step, day);
    if FrozenDay(Apply(db, step), day) { FreezeIsLocked(db, step, day); }
  }

  lemma UniqueRowsKept(db: Db, step: Step)
    requires UniqueRows(db) && Enabled(db, step)
    ensures UniqueRows(Apply(db, step))
  {
    if step.StartInsert? {
      assert forall i :: i in db.rows ==> db.rows[i] in Table(db);
    } else if !step.DropPartition? {
      assert Apply(db, step).rows == db.rows;
    }
  }

  lemma PendingKept(db: Db, step: Step)
    requires M.Inv(db.meta) && RowsInv(db) && PhaseInv(db) && Enabled(db, step)
    ensures PendingInv(Apply(db, step))
  {
    var db' := Apply(db, step);
    TableAfter(db, step);
    forall id | id in db'.pending
      ensures db'.pending[id].id == id && db'.pending[id] in Table(db')
      ensures !FrozenDay(db', DayOf(db'.pending[id])) && id !in db'.registry
    {
      if id in db.pending { assert db.pending[id] == db'.pending[id]; }
      NoIngestOnFrozenDay(db, step, DayOf(db'.pending[id]));
    }
  }

  lemma RowsKept(db: Db, step: Step)
    requires M.Inv(db.meta) && RowsInv(db) && PhaseInv(db) && Enabled(db, step)
    ensures RowsInv(Apply(db, step))
  {
    UniqueRowsKept(db, step);
    PendingKept(db, step);
  }

  lemma TornKept(db: Db, step: Step)
    requires M.Inv(db.meta) && RowsInv(db) && TornInv(db) && PhaseInv(db) && Enabled(db, step)
    ensures TornInv(Apply(db, step))
  {
    var db' := Apply(db, step);
    TableAfter(db, step);
    InFlightAfter(db, step);
    forall b ensures b in db.meta.hot ==> b in db'.meta.hot { VerifiedAfter(db, step, b); }
  }

  lemma ObjectsKept(db: Db, step: Step)
    requires ArchiveInv(db) && Enabled(db, step)
    ensures forall b, e :: b in Apply(db, step).objects && e in Apply(db, step).objects[b] ==> BucketOf(e) == b
  {
  }

  /** Steps that change rows, pending inserts or torn rows. */
  predicate ChangesRows(step: Step) {
    step.StartInsert? || step.CommitInsert? || step.AbortInsert? || step.DropPartition? || step.VerifyArchive?
  }

  lemma SettledQuietly(db: Db, step: Step, e: Event)
    requires Enabled(db, step) && !ChangesRows(step)
    requires M.Verified(db.meta, BucketOf(e)) && M.Verified(Apply(db, step).meta, BucketOf(e))
    ensures Settled(Apply(db, step), e) <==> Settled(db, e)
  {
  }

  /** The settled rows of a bucket that stays verified do not change. */
  lemma SettledSame(db: Db, step: Step, e: Event)
    requires M.Inv(db.meta) && RowsInv(db) && TornInv(db) && PhaseInv(db) && Enabled(db, step)
    requires M.Verified(db.meta, BucketOf(e)) && M.Verified(Apply(db, step).meta, BucketOf(e))
    requires step.DropPartition? ==> DayOf(e) != db.phase.day
    ensures Settled(Apply(db, step), e) <==> Settled(db, e)
  {
    if !ChangesRows(step) {
      SettledQuietly(db, step, e);
    } else {
      TableAfter(db, step);
      InFlightAfter(db, step);
      if step.StartInsert? && step.event == e {
        assert e in InFlight(Apply(db, step)) && e !in Table(db);
      }
    }
  }

  lemma SettledRowsSame(db: Db, step: Step, b: Bucket)
    requires M.Inv(db.meta) && RowsInv(db) && TornInv(db) && PhaseInv(db) && Enabled(db, step)
    requires M.Verified(db.meta, b) && M.Verified(Apply(db, step).meta, b) && b.day !in Apply(db, step).gone
    ensures SettledRows(Apply(db, step), b) == SettledRows(db, b)
  {
    var db' := Apply(db, step);
    forall e | BucketOf(e) == b ensures Settled(db', e) <==> Settled(db, e) {
      SettledSame(db, step, e);
    }
    SameSettledRows(db, db', b);
  }

  lemma SameSettledRows(before: Db, after: Db, b: Bucket)
    requires forall e :: BucketOf(e) == b ==> (Settled(after, e) <==> Settled(before, e))
    ensures SettledRows(after, b) == SettledRows(before, b)
  {
  }

  lemma VerifiedObjectKept(db: Db, step: Step, b: Bucket)
    requires M.Inv(db.meta) && RowsInv(db) && TornInv(db) && ArchiveInv(db) && PhaseInv(db) && Enabled(db, step)
    requires M.Verified(Apply(db, step).meta, b)
    ensures var db' := Apply(db, step);
      && b in db'.objects && |db'.objects[b]| == db'.meta.s3[b].count
      && (b.day !in db'.gone ==> db'.objects[b] == SettledRows(db', b))
  {
    var db' := Apply(db, step);
    VerifiedAfter(db, step, b);
    if M.Verified(db.meta, b) {
      assert db'.objects[b] == db.objects[b];
      if b.day !in db'.gone { SettledRowsSame(db, step, b); }
    } else {
      VerifiedObjectIsComplete(db, step.at);
      TableAfter(db, step);
      InFlightAfter(db, step);
    }
  }

  lemma ArchiveKept(db: Db, step: Step)
    requires Inv(db) && Enabled(db, step)
    ensures ArchiveInv(Apply(db, step))
  {
    ObjectsKept(db, step);
    forall b | M.Verified(Apply(db, step).meta, b) { VerifiedObjectKept(db, step, b); }
  }

  /** The lock-free export is sound: rows are only ever added while a bucket is live, so equal
      counts under the exclusive lock mean the exported object is the whole bucket. */
  lemma VerifiedObjectIsComplete(db: Db, at: int)
    requires PhaseInv(db) && Enabled(db, VerifyArchive(at))
    ensures db.objects[db.phase.bucket] == BucketRows(db, db.phase.bucket)
    ensures BucketRows(db, db.phase.bucket) !! InFlight(db)
  {
    var b := db.phase.bucket;
    SubsetOfEqualSize(db.objects[b], BucketRows(db, b));
  }

  lemma PhaseKept(db: Db, step: Step)
    requires M.Inv(db.meta) && RowsInv(db) && PhaseInv(db) && Enabled(db, step)
    ensures PhaseInv(Apply(db, step))
  {
    var db' := Apply(db, step);
    TableAfter(db, step);
    if db'.phase.Counted? || db'.phase.Exported? { VerifiedAfter(db, step, db'.phase.bucket); }
    if db.phase.Claimed? || db.phase.Dropped? { FrozenAfter(db, step, db.phase.day); }
    if step.ClaimDay? && db'.phase.Claimed? { ClaimedIsFrozen(db, step.cutoff); }
  }

  lemma ClaimedIsFrozen(db: Db, cutoff: int)
    requires Enabled(db, ClaimDay(cutoff)) && Apply(db, ClaimDay(cutoff)).phase.Claimed?
    ensures FrozenDay(Apply(db, ClaimDay(cutoff)), db.phase.day)
  {
  }

  lemma GoneKept(db: Db, step: Step)
    requires UniqueRows(db) && PhaseInv(db) && GoneInv(db) && Enabled(db, step)
    ensures GoneInv(Apply(db, step))
  {
    TableAfter(db, step);
    forall day ensures FrozenDay(db, day) ==> FrozenDay(Apply(db, step), day) { FrozenAfter(db, step, day); }
  }

  lemma RollupKept(db: Db, step: Step)
    requires M.Inv(db.meta) && RowsInv(db) && PhaseInv(db) && RollupInv(db) && Enabled(db, step)
    ensures RollupInv(Apply(db, step))
  {
    var db' := Apply(db, step);
    TableAfter(db, step);
    forall day ensures FrozenDay(db, day) ==> FrozenDay(db', day)
      ensures db.refresh.Refreshing? && HoldsDay(db.refresh.scope, day) ==> FrozenDay(db', day) == FrozenDay(db, day)
    {
      FrozenAfter(db, step, day);
      if !FrozenDay(db, day) && FrozenDay(db', day) { FreezeIsLocked(db, step, day); }
    }
    forall e | db.refresh.Refreshing? && InScope(db.refresh.scope, KeyOf(e))
      ensures HoldsDay(db.refresh.scope, DayOf(e)) {}
  }

  /** An ingest of a settled bucket after the barrier would have cleared its verification. */
  lemma NewlySettled(db: Db, step: Step, e: Event)
    requires M.Inv(db.meta) && RowsInv(db) && TornInv(db) && PhaseInv(db) && Enabled(db, step)
    requires Settled(Apply(db, step), e) && !Settled(db, e)
    ensures step.VerifyArchive?
  {
    VerifiedAfter(db, step, BucketOf(e));
    if M.Verified(db.meta, BucketOf(e)) {
      TableAfter(db, step);
      if !(step.DropPartition? && DayOf(e) == db.phase.day) { SettledSame(db, step, e); }
    }
  }

  lemma BarrierKept(db: Db, step: Step)
    requires M.Inv(db.meta) && RowsInv(db) && TornInv(db) && PhaseInv(db) && RollupInv(db) && BarrierInv(db)
    requires Enabled(db, step)
    ensures BarrierInv(Apply(db, step))
  {
    var db' := Apply(db, step);
    if db'.phase.BarrierRunning? || db'.phase.BarrierPassed? {
      var day := db'.phase.day;
      FrozenAfter(db, step, day);
      forall e | Settled(db', e) && DayOf(e) == day && !FrozenDay(db', day)
        ensures db'.phase.BarrierRunning? && HourOf(e) in db'.refresh.hours ==> e in db'.refresh.snap
        ensures db'.phase.BarrierPassed? ==> e in db'.reflected
      {
        if !Settled(db, e) { NewlySettled(db, step, e); }
        BarrierCovers(db, step, e);
      }
    }
  }

  lemma BarrierCovers(db: Db, step: Step, e: Event)
    requires PhaseInv(db) && RollupInv(db) && BarrierInv(db) && Enabled(db, step) && Settled(db, e)
    requires !FrozenDay(db, DayOf(e))
    ensures var db' := Apply(db, step);
      && (db'.phase == BarrierRunning(DayOf(e)) && db'.refresh.Refreshing? && HourOf(e) in db'.refresh.hours ==>
            e in db'.refresh.snap)
      && (db'.phase.BarrierPassed? && db'.phase.day == DayOf(e) ==> e in db'.reflected)
  {
    DayScopeCovers(e);
    if step.WriteRefresh? && db.phase.BarrierRunning? && db.phase.day == DayOf(e) {
      assert HourOf(e) in db.refresh.hours;
    }
    if step.WriteRefresh? && db.phase.BarrierPassed? && db.phase.day == DayOf(e) &&
      InScope(db.refresh.scope, KeyOf(e)) {
      ScopeHourRead(db.refresh.scope, db.refresh.hours, e);
    }
  }

  lemma DayScopeCovers(e: Event)
    ensures InScope(DayScope(DayOf(e)), KeyOf(e))
  {
  }

  lemma ScopeHourRead(scope: Scope, hours: set<nat>, e: Event)
    requires AllRead(scope, hours) && InScope(scope, KeyOf(e))
    ensures HourOf(e) in hours
  {
  }

  lemma FrozenKept(db: Db, step: Step)
    requires Inv(db) && Enabled(db, step)
    ensures FrozenInv(Apply(db, step))
  {
    var db' := Apply(db, step);
    forall e | FrozenDay(db', DayOf(e))
      ensures InVerifiedObject(db', e) ==> e in db'.reflected
      ensures e in db'.reflected ==> InVerifiedObject(db', e) || e in db'.torn || e in db'.lost
    {
      if FrozenDay(db, DayOf(e)) { StaysFrozen(db, step, e); } else { BecomesFrozen(db, step, e); }
    }
  }

  lemma BecomesFrozen(db: Db, step: Step, e: Event)
    requires Inv(db) && Enabled(db, step) && !FrozenDay(db, DayOf(e)) && FrozenDay(Apply(db, step), DayOf(e))
    ensures var db' := Apply(db, step);
      && (InVerifiedObject(db', e) ==> e in db'.reflected)
      && (e in db'.reflected ==> InVerifiedObject(db', e) || e in db'.torn || e in db'.lost)
  {
    var db' := Apply(db, step);
    FrozenAfter(db, step, DayOf(e));
    FreezeIsLocked(db, step, DayOf(e));
    VerifiedAfter(db, step, BucketOf(e));
    assert e !in InFlight(db);
    if InVerifiedObject(db', e) {
      assert e in SettledRows(db, BucketOf(e));
    }
    if e in db.reflected && e !in db.torn {
      assert e in SettledRows(db, BucketOf(e));
    }
  }

  lemma StaysFrozen(db: Db, step: Step, e: Event)
    requires Inv(db) && Enabled(db, step) && FrozenDay(db, DayOf(e))
    ensures var db' := Apply(db, step);
      && (InVerifiedObject(db', e) ==> e in db'.reflected)
      && (e in db'.reflected ==> InVerifiedObject(db', e) || e in db'.torn || e in db'.lost)
  {
    var db' := Apply(db, step);
    FrozenObjectFixed(db, step, e);
    assert e in db'.reflected <==> e in db.reflected;
  }

  /** Neither the verification nor the object of a frozen bucket ever changes. */
  lemma FrozenObjectFixed(db: Db, step: Step, e: Event)
    requires M.Inv(db.meta) && PendingInv(db) && PhaseInv(db) && Enabled(db, step) && FrozenDay(db, DayOf(e))
    ensures InVerifiedObject(Apply(db, step), e) <==> InVerifiedObject(db, e)
    ensures M.Verified(Apply(db, step).meta, BucketOf(e)) <==> M.Verified(db.meta, BucketOf(e))
  {
    VerifiedAfter(db, step, BucketOf(e));
    assert !M.Live(db.meta, BucketOf(e));
  }

  lemma StepKeepsInv(db: Db, step: Step)
    requires Inv(db) && Enabled(db, step)
    ensures Inv(Apply(db, step))
  {
    MetaKept(db, step);
    RowsKept(db, step);
    TornKept(db, step);
    ArchiveKept(db, step);
    PhaseKept(db, step);
    GoneKept(db, step);
    RollupKept(db, step);
    BarrierKept(db, step);
    FrozenKept(db, step);
  }

  lemma MetaKept(db: Db, step: Step)
    requires M.Inv(db.meta) && Enabled(db, step)
    ensures M.Inv(Apply(db, step).meta)
  {
    MetaAfter(db, step);
    if MetaOp(db, step).Some? { M.ApplyKeepsInv(db.meta, MetaOp(db, step).value); }
  }

  lemma {:induction false} ReachableInv(db: Db, steps: seq<Step>)
    requires Inv(db) && IsRun(db, steps)
    ensures Inv(After(db, steps))
    decreases |steps|
  {
    if steps != [] {
      StepKeepsInv(db, steps[0]);
      ReachableInv(Apply(db, steps[0]), steps[1..]);
    }
  }
}
