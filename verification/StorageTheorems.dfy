/** What the storage protocol guarantees over whole runs. */
module StorageTheorems {
  import opened Telemetry
  import opened StorageProtocol
  import opened StorageInvariants
  import M = IngestMetadata

  /** An event is held while ClickHouse has its row or a verified archive object contains it. */
  predicate Held(db: Db, e: Event) { e in Table(db) || InVerifiedObject(db, e) }

  lemma InitInv()
    ensures Inv(INIT)
  {
  }

  /** The lock-free export: a verified object holds exactly the bucket's rows, except those
      still in flight and those left behind by a rolled-back transaction. */
  lemma VerifiedArchiveIsComplete(steps: seq<Step>, b: Bucket)
    requires IsRun(INIT, steps)
    ensures var db := After(INIT, steps);
      M.Verified(db.meta, b) && b.day !in db.gone ==>
        && b in db.objects
        && db.objects[b] == BucketRows(db, b) - db.torn - InFlight(db)
        && b in db.meta.hot && |db.objects[b]| == db.meta.s3[b].count == db.meta.hot[b].count
  {
    InitInv();
    ReachableInv(INIT, steps);
    var db := After(INIT, steps);
    if M.Verified(db.meta, b) && b.day !in db.gone {
      assert db.objects[b] == SettledRows(db, b);
    }
  }

  /** A step makes an event disappear exactly when it drops the partition of a torn row. */
  lemma StepLosesOnlyTornRows(db: Db, step: Step, e: Event)
    requires Inv(db) && Enabled(db, step) && Held(db, e)
    ensures !Held(Apply(db, step), e) <==> step.DropPartition? && e in db.torn && DayOf(e) == db.phase.day
  {
    var db' := Apply(db, step);
    TableAfter(db, step);
    VerifiedAfter(db, step, BucketOf(e));
    if step.DropPartition? && DayOf(e) == db.phase.day {
      if e in Table(db) { FrozenRowIsArchivedOrTorn(db, e); }
      assert InVerifiedObject(db', e) <==> InVerifiedObject(db, e);
    } else if e !in Table(db') {
      ArchivedStaysHeld(db, step, e);
    }
  }

  lemma ArchivedStaysHeld(db: Db, step: Step, e: Event)
    requires Inv(db) && Enabled(db, step) && InVerifiedObject(db, e)
    requires !(step.DropPartition? && DayOf(e) == db.phase.day)
    ensures Held(Apply(db, step), e)
  {
    TableAfter(db, step);
    VerifiedAfter(db, step, BucketOf(e));
    if DayOf(e) in db.gone {
      FrozenObjectFixed(db, step, e);
    } else {
      assert e in SettledRows(db, BucketOf(e));
    }
  }

  /** On a frozen day a row is in a verified object or torn, never both. */
  lemma FrozenRowIsArchivedOrTorn(db: Db, e: Event)
    requires Inv(db) && FrozenDay(db, DayOf(e)) && e in Table(db)
    ensures InVerifiedObject(db, e) <==> e !in db.torn
  {
  }

  /** No stored event ever disappears, in any run, except the torn rows that partition drops
      took with them. */
  lemma {:induction false} NothingElseDisappears(db: Db, steps: seq<Step>, e: Event)
    requires Inv(db) && IsRun(db, steps) && (Held(db, e) || e in db.lost)
    ensures Held(After(db, steps), e) || e in After(db, steps).lost
    decreases |steps|
  {
    if steps != [] {
      if Held(db, e) { StepLosesOnlyTornRows(db, steps[0], e); }
      StepKeepsInv(db, steps[0]);
      NothingElseDisappears(Apply(db, steps[0]), steps[1..], e);
    }
  }

  ghost predicate NoAborts(steps: seq<Step>) { forall i :: 0 <= i < |steps| ==> !steps[i].AbortInsert? }

  lemma {:induction false} NoAbortsNoTornRows(db: Db, steps: seq<Step>)
    requires IsRun(db, steps) && NoAborts(steps) && db.torn == {} && db.lost == {}
    ensures After(db, steps).torn == {} && After(db, steps).lost == {}
    decreases |steps|
  {
    if steps != [] {
      assert !steps[0].AbortInsert?;
      assert forall i :: 0 <= i < |steps[1..]| ==> steps[1..][i] == steps[i + 1];
      NoAbortsNoTornRows(Apply(db, steps[0]), steps[1..]);
    }
  }

  /** When a ClickHouse insert and its claim commit together, what has once been stored stays
      stored through every continuation: late events, exports, freezes and drops included. */
  lemma NoEventDisappears(before: seq<Step>, after: seq<Step>, e: Event)
    requires IsRun(INIT, before) && IsRun(After(INIT, before), after) && NoAborts(before) && NoAborts(after)
    requires Held(After(INIT, before), e)
    ensures Held(After(After(INIT, before), after), e)
  {
    InitInv();
    ReachableInv(INIT, before);
    NoAbortsNoTornRows(INIT, before);
    NoAbortsNoTornRows(After(INIT, before), after);
    NothingElseDisappears(After(INIT, before), after, e);
  }

  /** What a caller can check before the drop: each bucket's row count against its recorded
      count. The drop loses nothing if and only if they all agree. */
  predicate CountsAgree(db: Db, b: Bucket) {
    |BucketRows(db, b)| == if b in db.meta.hot then db.meta.hot[b].count else 0
  }

  lemma DropIsSafeIffCountsAgree(db: Db)
    requires Inv(db) && Enabled(db, DropPartition) && db.phase.day !in db.gone
    ensures (forall b: Bucket :: b.day == db.phase.day ==> CountsAgree(db, b)) <==>
            (forall e :: Held(db, e) ==> Held(Apply(db, DropPartition), e))
  {
    var day := db.phase.day;
    forall b: Bucket | b.day == day
      ensures CountsAgree(db, b) <==> BucketRows(db, b) !! db.torn
    {
      CountsRevealTornRows(db, b);
    }
    forall e | Held(db, e)
      ensures Held(Apply(db, DropPartition), e) <==> !(e in db.torn && DayOf(e) == day)
    {
      StepLosesOnlyTornRows(db, DropPartition, e);
    }
    if exists b: Bucket :: b.day == day && !CountsAgree(db, b) {
      var b: Bucket :| b.day == day && !CountsAgree(db, b);
      var e :| e in BucketRows(db, b) && e in db.torn;
      assert Held(db, e) && !Held(Apply(db, DropPartition), e);
    }
    if e :| Held(db, e) && !Held(Apply(db, DropPartition), e) {
      assert e in BucketRows(db, BucketOf(e));
      assert !CountsAgree(db, BucketOf(e));
    }
  }

  lemma CountsRevealTornRows(db: Db, b: Bucket)
    requires Inv(db) && FrozenDay(db, b.day) && b.day !in db.gone
    ensures CountsAgree(db, b) <==> BucketRows(db, b) !! db.torn
  {
    var rows := BucketRows(db, b);
    assert rows !! InFlight(db);
    if b in db.meta.hot {
      assert M.Verified(db.meta, b);
      assert db.objects[b] == rows - db.torn;
      assert rows == (rows - db.torn) + rows * db.torn;
      assert |rows| == |rows - db.torn| + |rows * db.torn|;
    } else {
      assert rows <= db.torn;
    }
  }

  // The rollup barrier.

  /** The events the stored rollup counts under one endpoint-minute. */
  function RolledUp(db: Db, k: Key): set<Event> { set e | e in db.reflected && KeyOf(e) == k }

  function ArchivedUnder(db: Db, k: Key): set<Event> {
    var b := Bucket(k.endpoint, DayOfMinute(k.minute));
    if M.Verified(db.meta, b) && b in db.objects then set e | e in db.objects[b] && KeyOf(e) == k else {}
  }

  /** A stored row the barrier's rollup does not count makes the deletion claim fail. */
  lemma UncountedRowBlocksClaim(db: Db, e: Event, cutoff: int)
    requires Inv(db) && db.phase == BarrierPassed(DayOf(e)) && !FrozenDay(db, DayOf(e))
    requires e in Table(db) && e !in db.torn && e !in InFlight(db) && e !in db.reflected
    ensures !M.DeletionEligible(db.meta, DayOf(e), cutoff)
  {
  }

  /** The lifecycle worker stays where it is through all the steps. */
  ghost predicate Waits(db: Db, steps: seq<Step>)
    requires IsRun(db, steps)
    decreases |steps|
  {
    steps != [] ==> Apply(db, steps[0]).phase == db.phase && Waits(Apply(db, steps[0]), steps[1..])
  }

  /** Some step commits an ingest of the day. */
  ghost predicate Ingests(db: Db, steps: seq<Step>, day: nat)
    requires IsRun(db, steps)
    decreases |steps|
  {
    && steps != []
    && (|| (steps[0].CommitInsert? && DayOf(db.pending[steps[0].id]) == day)
        || Ingests(Apply(db, steps[0]), steps[1..], day))
  }

  /** A HOT row of the unfrozen day has no verified archive. */
  ghost predicate Unarchived(db: Db, day: nat) {
    !FrozenDay(db, day) && exists b :: b in db.meta.hot && b.day == day && !M.Verified(db.meta, b)
  }

  lemma IngestLeavesUnarchived(db: Db, step: Step)
    requires Inv(db) && Enabled(db, step) && step.CommitInsert?
    ensures Unarchived(Apply(db, step), DayOf(db.pending[step.id]))
  {
    var e := db.pending[step.id];
    FrozenAfter(db, step, DayOf(e));
    M.AfterIngest(db.meta, BucketOf(e));
  }

  lemma UnarchivedStays(db: Db, step: Step, day: nat)
    requires Inv(db) && Enabled(db, step) && Unarchived(db, day)
    requires db.phase == BarrierPassed(day) == Apply(db, step).phase
    ensures Unarchived(Apply(db, step), day)
  {
    var b :| b in db.meta.hot && b.day == day && !M.Verified(db.meta, b);
    FrozenAfter(db, step, day);
    VerifiedAfter(db, step, b);
    MetaAfter(db, step);
  }

  lemma {:induction false} UnarchivedThrough(db: Db, steps: seq<Step>, day: nat)
    requires Inv(db) && IsRun(db, steps) && Waits(db, steps) && db.phase == BarrierPassed(day)
    requires Unarchived(db, day) || Ingests(db, steps, day)
    ensures Unarchived(After(db, steps), day)
    decreases |steps|
  {
    if steps != [] {
      if Unarchived(db, day) {
        UnarchivedStays(db, steps[0], day);
      } else if steps[0].CommitInsert? && DayOf(db.pending[steps[0].id]) == day {
        IngestLeavesUnarchived(db, steps[0]);
      }
      StepKeepsInv(db, steps[0]);
      UnarchivedThrough(Apply(db, steps[0]), steps[1..], day);
    }
  }

  /** An ingest of the day that commits after the barrier, at any time and whether or not a later
      flush has counted it, makes the deletion claim fail. */
  lemma LateIngestBlocksClaim(db: Db, steps: seq<Step>, day: nat, cutoff: int)
    requires Inv(db) && IsRun(db, steps) && Waits(db, steps) && db.phase == BarrierPassed(day)
    requires Ingests(db, steps, day)
    ensures var m := After(db, steps).meta;
      !M.DeletionPending(m, day) && !M.DeletionEligible(m, day, cutoff) && M.Apply(m, M.ClaimDeletion(day, cutoff)) == m
  {
    UnarchivedThrough(db, steps, day);
    var m := After(db, steps).meta;
    var b :| b in m.hot && b.day == day && !M.Verified(m, b);
    assert !m.hot[b].isDelete;
    assert !M.VerifiedBy(m, b, cutoff);
  }

  /** No row of the minute was left behind by a rolled-back transaction. */
  ghost predicate NoneTorn(db: Db, k: Key) {
    forall e :: KeyOf(e) == k ==> e !in db.torn && e !in db.lost
  }

  /** From the moment a day is frozen, and whatever happens later, the rollup of its minutes
      counts every archived event and besides at most torn ones: exactly the archived events in
      a minute without torn rows. */
  lemma FrozenRollupIsTheArchive(steps: seq<Step>, k: Key)
    requires IsRun(INIT, steps)
    ensures var db := After(INIT, steps);
      FrozenDay(db, DayOfMinute(k.minute)) ==>
        && ArchivedUnder(db, k) <= RolledUp(db, k)
        && RolledUp(db, k) <= ArchivedUnder(db, k) + db.torn + db.lost
        && (NoneTorn(db, k) ==> RolledUp(db, k) == ArchivedUnder(db, k))
  {
    InitInv();
    ReachableInv(INIT, steps);
    var db := After(INIT, steps);
    if FrozenDay(db, DayOfMinute(k.minute)) {
      forall e | e in ArchivedUnder(db, k) ensures e in RolledUp(db, k) {
        assert InVerifiedObject(db, e);
      }
      forall e | e in RolledUp(db, k) ensures e in ArchivedUnder(db, k) + db.torn + db.lost {
        assert KeyOf(e) == k;
      }
    }
  }

  lemma {:induction false} FrozenRollupNeverChanges(db: Db, steps: seq<Step>, k: Key)
    requires Inv(db) && IsRun(db, steps) && FrozenDay(db, DayOfMinute(k.minute))
    ensures RolledUp(After(db, steps), k) == RolledUp(db, k)
    ensures ArchivedUnder(After(db, steps), k) == ArchivedUnder(db, k)
    decreases |steps|
  {
    if steps != [] {
      var db' := Apply(db, steps[0]);
      FrozenKeyFixed(db, steps[0], k);
      FrozenAfter(db, steps[0], DayOfMinute(k.minute));
      StepKeepsInv(db, steps[0]);
      FrozenRollupNeverChanges(db', steps[1..], k);
    }
  }

  lemma FrozenEventFixed(db: Db, step: Step, e: Event)
    requires Inv(db) && Enabled(db, step) && FrozenDay(db, DayOf(e))
    ensures e in Apply(db, step).reflected <==> e in db.reflected
    ensures InVerifiedObject(Apply(db, step), e) <==> InVerifiedObject(db, e)
  {
    FrozenObjectFixed(db, step, e);
  }

  lemma SameUnder(before: Db, after: Db, k: Key)
    requires ArchiveInv(before) && ArchiveInv(after)
    requires forall e :: KeyOf(e) == k ==> (e in after.reflected <==> e in before.reflected)
    requires forall e :: KeyOf(e) == k ==> (InVerifiedObject(after, e) <==> InVerifiedObject(before, e))
    ensures RolledUp(after, k) == RolledUp(before, k)
    ensures ArchivedUnder(after, k) == ArchivedUnder(before, k)
  {
  }

  lemma FrozenKeyFixed(db: Db, step: Step, k: Key)
    requires Inv(db) && Enabled(db, step) && FrozenDay(db, DayOfMinute(k.minute))
    ensures RolledUp(Apply(db, step), k) == RolledUp(db, k)
    ensures ArchivedUnder(Apply(db, step), k) == ArchivedUnder(db, k)
  {
    ArchiveKept(db, step);
    forall e | KeyOf(e) == k
      ensures e in Apply(db, step).reflected <==> e in db.reflected
      ensures InVerifiedObject(Apply(db, step), e) <==> InVerifiedObject(db, e)
    {
      FrozenEventFixed(db, step, e);
    }
    SameUnder(db, Apply(db, step), k);
  }

  // Uniqueness, with rolled-back transactions included.

  /** ClickHouse never holds two rows of one event id, whatever commits, rolls back, retries
      or is dropped. */
  lemma OneRowPerEventId(steps: seq<Step>, i: nat, j: nat)
    requires IsRun(INIT, steps)
    ensures var db := After(INIT, steps);
      i in db.rows && j in db.rows && db.rows[i].id == db.rows[j].id ==> i == j
  {
    InitInv();
    ReachableInv(INIT, steps);
  }

  /** The registry is append-only: an identity, once committed, is the identity for good. */
  lemma {:induction false} RegistryIsAppendOnly(db: Db, steps: seq<Step>, id: int)
    requires Inv(db) && IsRun(db, steps) && id in db.registry
    ensures id in After(db, steps).registry && After(db, steps).registry[id] == db.registry[id]
    decreases |steps|
  {
    if steps != [] {
      StepKeepsInv(db, steps[0]);
      RegistryIsAppendOnly(Apply(db, steps[0]), steps[1..], id);
    }
  }

  // Without the assumption that insert and claim commit together, events can be lost.

  const FIRST := Event(1, 7, "agent", "PROCESS_EXECUTION", 0, "a")
  const SECOND := Event(2, 7, "agent", "PROCESS_EXECUTION", 1, "b")
  const DAY0 := Bucket(7, 0)

  const HOURS: set<nat> := {0, 1, 2, 3, 4, 5, 6, 7, 8, 9, 10, 11, 12, 13, 14, 15, 16, 17, 18, 19, 20, 21, 22, 23}
  const STORE_FIRST: seq<Step> := [StartInsert(FIRST), CommitInsert(1)]
  const ARCHIVE_FIRST: seq<Step> := [CountBucket(DAY0), WriteObject, VerifyArchive(0)]
  const TEAR_SECOND: seq<Step> := [StartInsert(SECOND), AbortInsert(2)]
  const BARRIER: seq<Step> := [StartBarrier(0), ReadHours(HOURS), WriteRefresh]

  const VERIFIED_META := M.Meta(
    map[DAY0 := M.HotRow(1, false, false)], map[DAY0 := M.ArchiveRow(M.Archived, 1, Some(0), None)])
  const WITH_FIRST := Db(
    map[0 := FIRST], 1, map[1 := FIRST], map[], M.Meta(map[DAY0 := M.HotRow(0, false, false)], map[]), map[], {},
    NoRefresh, Idle, {}, {}, {})
  const WITH_ARCHIVE := WITH_FIRST.(meta := VERIFIED_META, objects := map[DAY0 := {FIRST}])
  const WITH_TORN_ROW := WITH_ARCHIVE.(rows := map[0 := FIRST, 1 := SECOND], nextRow := 2, torn := {SECOND})

  /** One event is archived and verified, a second one of the same bucket is torn, and the
      claim, which compares recorded counts only, succeeds: the drop loses the second event. */
  lemma ATornRowCanBeLost()
    ensures var steps := STORE_FIRST + ARCHIVE_FIRST + TEAR_SECOND + BARRIER + [ClaimDay(0)];
      && IsRun(INIT, steps)
      && var db := After(INIT, steps);
         Held(db, SECOND) && Enabled(db, DropPartition) && !Held(Apply(db, DropPartition), SECOND)
  {
    FirstIsStored();
    FirstIsArchived();
    SecondIsTorn();
    BarrierPasses();
    RunConcat(INIT, STORE_FIRST, ARCHIVE_FIRST);
    RunConcat(INIT, STORE_FIRST + ARCHIVE_FIRST, TEAR_SECOND);
    RunConcat(INIT, STORE_FIRST + ARCHIVE_FIRST + TEAR_SECOND, BARRIER);
    var db := After(WITH_TORN_ROW, BARRIER);
    ClaimSucceeds(db);
    RunCons(db, ClaimDay(0), []);
    RunConcat(INIT, STORE_FIRST + ARCHIVE_FIRST + TEAR_SECOND + BARRIER, [ClaimDay(0)]);
    DropLosesSecond(Apply(db, ClaimDay(0)));
  }

  lemma DropLosesSecond(db: Db)
    requires db.phase == Claimed(0) && db.rows == WITH_TORN_ROW.rows && db.objects == WITH_TORN_ROW.objects
    ensures Held(db, SECOND) && Enabled(db, DropPartition) && !Held(Apply(db, DropPartition), SECOND)
  {
    assert db.rows[1] == SECOND;
    assert Apply(db, DropPartition).rows == map[];
  }

  lemma FirstIsStored()
    ensures IsRun(INIT, STORE_FIRST) && After(INIT, STORE_FIRST) == WITH_FIRST
  {
    var db1 := Apply(INIT, StartInsert(FIRST));
    var db2 := Apply(db1, CommitInsert(1));
    assert db2.rows == map[0 := FIRST] && db2.pending == map[];
    RunCons(db1, CommitInsert(1), []);
    RunCons(INIT, StartInsert(FIRST), [CommitInsert(1)]);
  }

  lemma FirstIsArchived()
    ensures IsRun(WITH_FIRST, ARCHIVE_FIRST) && After(WITH_FIRST, ARCHIVE_FIRST) == WITH_ARCHIVE
  {
    assert WITH_FIRST.rows[0] == FIRST;
    assert BucketRows(WITH_FIRST, DAY0) == {FIRST};
    var db1 := Apply(WITH_FIRST, CountBucket(DAY0));
    assert BucketRows(db1, DAY0) == {FIRST};
    var db2 := Apply(db1, WriteObject);
    assert BucketRows(db2, DAY0) == {FIRST};
    var db3 := Apply(db2, VerifyArchive(0));
    assert db3 == WITH_ARCHIVE;
    RunCons(db2, VerifyArchive(0), []);
    RunCons(db1, WriteObject, [VerifyArchive(0)]);
    RunCons(WITH_FIRST, CountBucket(DAY0), [WriteObject, VerifyArchive(0)]);
  }

  lemma SecondIsTorn()
    ensures IsRun(WITH_ARCHIVE, TEAR_SECOND) && After(WITH_ARCHIVE, TEAR_SECOND) == WITH_TORN_ROW
  {
    var db1 := Apply(WITH_ARCHIVE, StartInsert(SECOND));
    var db2 := Apply(db1, AbortInsert(2));
    assert db2 == WITH_TORN_ROW;
    RunCons(db1, AbortInsert(2), []);
    RunCons(WITH_ARCHIVE, StartInsert(SECOND), [AbortInsert(2)]);
  }

  lemma BarrierPasses()
    ensures IsRun(WITH_TORN_ROW, BARRIER)
    ensures var db := After(WITH_TORN_ROW, BARRIER);
      db == WITH_TORN_ROW.(reflected := db.reflected, phase := BarrierPassed(0))
  {
    var db1 := Apply(WITH_TORN_ROW, StartBarrier(0));
    var db2 := Apply(db1, ReadHours(HOURS));
    HoursCoverDay();
    assert db2.refresh.scope == DayScope(0) && db2.refresh.hours == HOURS;
    RunCons(db2, WriteRefresh, []);
    RunCons(db1, ReadHours(HOURS), [WriteRefresh]);
    RunCons(WITH_TORN_ROW, StartBarrier(0), [ReadHours(HOURS), WriteRefresh]);
  }

  lemma HoursCoverDay()
    ensures AllRead(DayScope(0), HOURS)
  {
  }

  lemma ClaimSucceeds(db: Db)
    requires db.meta == VERIFIED_META && db.phase == BarrierPassed(0) && db.pending == map[] && db.refresh == NoRefresh
    ensures Enabled(db, ClaimDay(0)) && Apply(db, ClaimDay(0)).phase == Claimed(0)
    ensures Apply(db, ClaimDay(0)) == db.(meta := Apply(db, ClaimDay(0)).meta, phase := Claimed(0))
  {
  }

  lemma RunCons(db: Db, step: Step, rest: seq<Step>)
    requires Enabled(db, step) && IsRun(Apply(db, step), rest)
    ensures IsRun(db, [step] + rest) && After(db, [step] + rest) == After(Apply(db, step), rest)
  {
  }

  lemma {:induction false} RunConcat(db: Db, first: seq<Step>, second: seq<Step>)
    requires IsRun(db, first) && IsRun(After(db, first), second)
    ensures IsRun(db, first + second) && After(db, first + second) == After(After(db, first), second)
    decreases |first|
  {
    if first == [] {
      assert first + second == second;
    } else {
      RunConcat(Apply(db, first[0]), first[1..], second);
      assert (first + second)[1..] == first[1..] + second;
    }
  }
}
