/** The `ingest_metadata` table: one HOT row and at most one S3 row per endpoint-day.
    Every operation is one PostgreSQL transaction; `MetadataRepository` performs it on its
    fields, and a function on `Meta` values says what the transaction does. */
module IngestMetadata {
  import opened Telemetry

  datatype HotRow = HotRow(count: nat, isDelete: bool, partitionDeleted: bool)

  datatype Status = Archived | RestoreRequested | Restored | RestoreFailed | Expired

  datatype ArchiveRow = ArchiveRow(status: Status, count: nat, verifiedAt: Option<int>, expiresAt: Option<int>)

  datatype Meta = Meta(hot: map<Bucket, HotRow>, s3: map<Bucket, ArchiveRow>)

  const EMPTY := Meta(map[], map[])

  predicate Live(m: Meta, b: Bucket) { b in m.hot && !m.hot[b].isDelete }

  /** A day is frozen once any of its HOT rows is marked for deletion. */
  predicate Frozen(m: Meta, day: nat) {
    exists b :: b in m.hot && b.day == day && (m.hot[b].isDelete || m.hot[b].partitionDeleted)
  }

  predicate Verified(m: Meta, b: Bucket) { b in m.s3 && m.s3[b].verifiedAt.Some? }

  /** The archive row that makes a HOT row eligible for deletion. */
  predicate VerifiedBy(m: Meta, b: Bucket, cutoff: int)
    requires b in m.hot
  {
    b in m.s3 && m.s3[b].verifiedAt.Some? && m.s3[b].verifiedAt.value <= cutoff && m.s3[b].count == m.hot[b].count
  }

  predicate DeletionPending(m: Meta, day: nat) {
    exists b :: b in m.hot && b.day == day && m.hot[b].isDelete && !m.hot[b].partitionDeleted
  }

  predicate DeletionEligible(m: Meta, day: nat, cutoff: int) {
    && (exists b :: b in m.hot && !m.hot[b].isDelete && b.day == day)
    && (forall b :: b in m.hot && !m.hot[b].isDelete && b.day == day ==> VerifiedBy(m, b, cutoff))
  }

  datatype Op =
    | Ingest(bucket: Bucket)
    | RecordVerified(bucket: Bucket, count: nat, at: int)
    | ClaimDeletion(day: nat, cutoff: int)
    | MarkDeleted(day: nat)
    | RequestRestore(bucket: Bucket)
    | MarkRestored(bucket: Bucket, expires: int)
    | MarkRestoreFailed(bucket: Bucket)
    | ExpireRestores(now: int)

  function WithStatus(m: Meta, b: Bucket, status: Status, expiresAt: Option<int>): Meta
    requires b in m.s3
  {
    m.(s3 := m.s3[b := m.s3[b].(status := status, expiresAt := expiresAt)])
  }

  function IngestInto(m: Meta, b: Bucket): Meta
    requires !Frozen(m, b.day)
  {
    Meta(
      if b in m.hot then m.hot else m.hot[b := HotRow(0, false, false)],
      if b in m.s3 then m.s3[b := m.s3[b].(verifiedAt := None)] else m.s3)
  }

  function FreezeDay(m: Meta, day: nat): Meta {
    m.(hot := map b | b in m.hot :: if b.day == day then m.hot[b].(isDelete := true) else m.hot[b])
  }

  function DeletedDay(m: Meta, day: nat): Meta {
    m.(hot := map b | b in m.hot ::
      if b.day == day && m.hot[b].isDelete then m.hot[b].(partitionDeleted := true) else m.hot[b])
  }

  predicate Restorable(m: Meta, b: Bucket) {
    b in m.s3 && m.s3[b].status in {Archived, RestoreFailed, Expired} && !Live(m, b)
  }

  predicate Expiring(row: ArchiveRow, now: int) {
    row.status == Restored && row.expiresAt.Some? && row.expiresAt.value <= now
  }

  function Sweep(s3: map<Bucket, ArchiveRow>, now: int): map<Bucket, ArchiveRow> {
    map b | b in s3 :: if Expiring(s3[b], now) then s3[b].(status := Expired) else s3[b]
  }

  /** What each transaction leaves behind; a refused operation leaves the table as it was. */
  function Apply(m: Meta, op: Op): Meta {
    match op
    case Ingest(b) => if Frozen(m, b.day) then m else IngestInto(m, b)
    case RecordVerified(b, n, at) =>
      if !Live(m, b) then m
      else Meta(m.hot[b := m.hot[b].(count := n)], m.s3[b := ArchiveRow(Archived, n, Some(at), None)])
    case ClaimDeletion(day, cutoff) =>
      if !DeletionPending(m, day) && DeletionEligible(m, day, cutoff) then FreezeDay(m, day) else m
    case MarkDeleted(day) => DeletedDay(m, day)
    case RequestRestore(b) => if Restorable(m, b) then WithStatus(m, b, RestoreRequested, None) else m
    case MarkRestored(b, expires) =>
      if b in m.s3 && m.s3[b].status == RestoreRequested then WithStatus(m, b, Restored, Some(expires)) else m
    case MarkRestoreFailed(b) =>
      if b in m.s3 && m.s3[b].status == RestoreRequested then WithStatus(m, b, RestoreFailed, m.s3[b].expiresAt) else m
    case ExpireRestores(now) => m.(s3 := Sweep(m.s3, now))
  }

  /** Holds in every reachable table. */
  ghost predicate Inv(m: Meta) {
    && (forall b :: b in m.s3 ==> b in m.hot)
    && (forall b :: b in m.s3 && Live(m, b) ==> m.s3[b].status == Archived)
    && (forall b :: b in m.hot && m.hot[b].partitionDeleted ==> m.hot[b].isDelete)
    && (forall b, c :: b in m.hot && c in m.hot && b.day == c.day ==> m.hot[b].isDelete == m.hot[c].isDelete)
    && (forall b :: Verified(m, b) ==> m.s3[b].count == m.hot[b].count)
    && (forall b :: b in m.hot && m.hot[b].isDelete ==> Verified(m, b))
  }

  lemma IngestKeepsInv(m: Meta, b: Bucket)
    requires Inv(m) && !Frozen(m, b.day)
    ensures Inv(IngestInto(m, b))
  {
    assert forall c :: c in m.hot && c.day == b.day ==> !m.hot[c].isDelete;
  }

  lemma FreezeKeepsInv(m: Meta, day: nat, cutoff: int)
    requires Inv(m) && DeletionEligible(m, day, cutoff)
    ensures Inv(FreezeDay(m, day))
  {
    var l :| l in m.hot && !m.hot[l].isDelete && l.day == day;
    assert forall c :: c in m.hot && c.day == day ==> !m.hot[c].isDelete;
    assert forall c :: c in m.hot && c.day == day ==> VerifiedBy(m, c, cutoff);
  }

  lemma StatusChangeKeepsInv(m: Meta, m': Meta)
    requires Inv(m) && m'.hot == m.hot && m'.s3.Keys == m.s3.Keys
    requires forall b :: b in m.s3 ==> m'.s3[b].verifiedAt == m.s3[b].verifiedAt && m'.s3[b].count == m.s3[b].count
    requires forall b :: b in m.s3 && Live(m, b) ==> m'.s3[b].status == m.s3[b].status
    ensures Inv(m')
  {
  }

  lemma RecordKeepsInv(m: Meta, b: Bucket, n: nat, at: int)
    requires Inv(m) && Live(m, b)
    ensures Inv(Apply(m, RecordVerified(b, n, at)))
  {
  }

  lemma DeletedKeepsInv(m: Meta, day: nat)
    requires Inv(m)
    ensures Inv(DeletedDay(m, day))
  {
  }

  lemma ApplyKeepsInv(m: Meta, op: Op)
    requires Inv(m)
    ensures Inv(Apply(m, op))
  {
    match op {
      case Ingest(b) => if !Frozen(m, b.day) { IngestKeepsInv(m, b); }
      case RecordVerified(b, n, at) => if Live(m, b) { RecordKeepsInv(m, b, n, at); }
      case ClaimDeletion(day, cutoff) =>
        if DeletionEligible(m, day, cutoff) { FreezeKeepsInv(m, day, cutoff); }
      case MarkDeleted(day) => DeletedKeepsInv(m, day);
      case _ => StatusChangeKeepsInv(m, Apply(m, op));
    }
  }

  /** The restore state machine: the only status changes there are. */
  predicate StatusEdge(before: Status, after: Status) {
    || before == after
    || (before in {Archived, RestoreFailed, Expired} && after == RestoreRequested)
    || (before == RestoreRequested && after in {Restored, RestoreFailed})
    || (before == Restored && after == Expired)
  }

  lemma ApplyFollowsEdges(m: Meta, op: Op, b: Bucket)
    requires Inv(m) && b in m.s3
    ensures b in Apply(m, op).s3
    ensures StatusEdge(m.s3[b].status, Apply(m, op).s3[b].status)
    ensures !Live(m, b) ==> !Live(Apply(m, op), b)
    ensures Frozen(m, b.day) ==>
      Apply(m, op).s3[b].verifiedAt == m.s3[b].verifiedAt && Apply(m, op).s3[b].count == m.s3[b].count
  {
  }

  /** A frozen day stays frozen. */
  lemma FrozenForever(m: Meta, op: Op, day: nat)
    requires Frozen(m, day)
    ensures Frozen(Apply(m, op), day)
  {
    var b :| b in m.hot && b.day == day && (m.hot[b].isDelete || m.hot[b].partitionDeleted);
    var m' := Apply(m, op);
    assert b in m'.hot && (m'.hot[b].isDelete || m'.hot[b].partitionDeleted);
  }

  /** Nothing but the deletion claim freezes a day. */
  lemma OnlyClaimsFreeze(m: Meta, op: Op, day: nat)
    requires !Frozen(m, day) && Frozen(Apply(m, op), day)
    ensures op.ClaimDeletion? && op.day == day && DeletionEligible(m, day, op.cutoff)
  {
    var m' := Apply(m, op);
    var b :| b in m'.hot && b.day == day && (m'.hot[b].isDelete || m'.hot[b].partitionDeleted);
  }

  /** Only an ingest clears a verification and only a recorded export sets one. */
  lemma VerificationAfter(m: Meta, op: Op, b: Bucket)
    requires Inv(m)
    ensures Verified(Apply(m, op), b) && !Verified(m, b) ==> op.RecordVerified? && op.bucket == b
    ensures Verified(m, b) && !Verified(Apply(m, op), b) ==> op == Ingest(b)
    ensures Verified(m, b) && Verified(Apply(m, op), b) ==>
      Apply(m, op).s3[b].count == m.s3[b].count || (op.RecordVerified? && op.bucket == b)
    ensures b in m.hot ==> b in Apply(m, op).hot
  {
  }

  function Run(m: Meta, ops: seq<Op>): Meta
    decreases |ops|
  {
    if ops == [] then m else Run(Apply(m, ops[0]), ops[1..])
  }

  lemma {:induction false} RunKeepsInv(m: Meta, ops: seq<Op>)
    requires Inv(m)
    ensures Inv(Run(m, ops))
    decreases |ops|
  {
    if ops != [] {
      ApplyKeepsInv(m, ops[0]);
      RunKeepsInv(Apply(m, ops[0]), ops[1..]);
    }
  }

  /** In every run, while a HOT row is live its archive is ARCHIVED; once the archive has
      left ARCHIVED, no continuation of the run ever makes the HOT row live again. */
  lemma {:induction false} LeavingArchivedIsFinal(before: seq<Op>, after: seq<Op>, b: Bucket)
    requires b in Run(EMPTY, before).s3
    ensures var m := Run(EMPTY, before);
      && Inv(m)
      && (Live(m, b) ==> m.s3[b].status == Archived)
      && (m.s3[b].status != Archived ==> b in Run(m, after).s3 && !Live(Run(m, after), b))
  {
    var m := Run(EMPTY, before);
    RunKeepsInv(EMPTY, before);
    if m.s3[b].status != Archived {
      DeadStaysDead(m, after, b);
    }
  }

  lemma {:induction false} DeadStaysDead(m: Meta, ops: seq<Op>, b: Bucket)
    requires Inv(m) && b in m.s3 && !Live(m, b)
    ensures b in Run(m, ops).s3 && !Live(Run(m, ops), b)
    decreases |ops|
  {
    if ops != [] {
      ApplyKeepsInv(m, ops[0]);
      ApplyFollowsEdges(m, ops[0], b);
      DeadStaysDead(Apply(m, ops[0]), ops[1..], b);
    }
  }

  /** Every consecutive pair of states of every run follows the restore state machine. */
  lemma RunFollowsEdges(before: seq<Op>, op: Op, b: Bucket)
    requires b in Run(EMPTY, before).s3
    ensures b in Run(EMPTY, before + [op]).s3
    ensures StatusEdge(Run(EMPTY, before).s3[b].status, Run(EMPTY, before + [op]).s3[b].status)
  {
    RunKeepsInv(EMPTY, before);
    RunAppend(EMPTY, before, op);
    ApplyFollowsEdges(Run(EMPTY, before), op, b);
  }

  lemma {:induction false} RunAppend(m: Meta, ops: seq<Op>, op: Op)
    ensures Run(m, ops + [op]) == Apply(Run(m, ops), op)
    decreases |ops|
  {
    if ops == [] {
      assert Run(Apply(m, op), []) == Apply(m, op);
    } else {
      assert (ops + [op])[1..] == ops[1..] + [op];
      RunAppend(Apply(m, ops[0]), ops[1..], op);
    }
  }

  /** What a caller may rely on across any one transaction: archives are never forgotten and
      move only along the restore state machine, a dead HOT row stays dead, a frozen day stays
      frozen with its verified archives as they were. */
  ghost predicate Progress(m: Meta, m': Meta) {
    && (forall b :: b in m.hot ==> b in m'.hot)
    && (forall b :: b in m.s3 ==> b in m'.s3 && StatusEdge(m.s3[b].status, m'.s3[b].status))
    && (forall b :: b in m.s3 && !Live(m, b) ==> !Live(m', b))
    && (forall day :: Frozen(m, day) ==> Frozen(m', day))
    && (forall b :: b in m.s3 && b in m'.s3 && Frozen(m, b.day) ==>
          m'.s3[b].verifiedAt == m.s3[b].verifiedAt && m'.s3[b].count == m.s3[b].count)
  }

  /** Every bucket but `b` has the rows it had. */
  ghost predicate OnlyBucket(m: Meta, m': Meta, b: Bucket) {
    && m'.hot - {b} == m.hot - {b}
    && m'.s3 - {b} == m.s3 - {b}
  }

  lemma ApplyProgresses(m: Meta, op: Op)
    requires Inv(m)
    ensures Inv(Apply(m, op)) && Progress(m, Apply(m, op))
  {
    var m' := Apply(m, op);
    ApplyKeepsInv(m, op);
    forall b | b in m.hot ensures b in m'.hot {
      VerificationAfter(m, op, b);
    }
    forall b | b in m.s3
      ensures b in m'.s3 && StatusEdge(m.s3[b].status, m'.s3[b].status)
      ensures !Live(m, b) ==> !Live(m', b)
      ensures Frozen(m, b.day) ==> m'.s3[b].verifiedAt == m.s3[b].verifiedAt && m'.s3[b].count == m.s3[b].count
    {
      ApplyFollowsEdges(m, op, b);
    }
    forall day | Frozen(m, day) ensures Frozen(m', day) {
      FrozenForever(m, op, day);
    }
  }

  /** Recording the removal of a partition freezes and thaws nothing. */
  lemma SameDaysAfterDeletion(m: Meta, day: nat)
    requires Inv(m)
    ensures !DeletionPending(DeletedDay(m, day), day)
    ensures forall d :: d != day ==> (DeletionPending(DeletedDay(m, day), d) <==> DeletionPending(m, d))
    ensures forall d :: Frozen(DeletedDay(m, day), d) <==> Frozen(m, d)
    ensures forall b :: Live(DeletedDay(m, day), b) <==> Live(m, b)
  {
    var m' := DeletedDay(m, day);
    assert forall b :: b in m.hot <==> b in m'.hot;
    assert forall b :: b in m.hot ==> m'.hot[b].isDelete == m.hot[b].isDelete;
    forall d | d != day ensures DeletionPending(m', d) <==> DeletionPending(m, d) {
      assert forall b :: b in m.hot && b.day == d ==> m'.hot[b] == m.hot[b];
    }
  }

  lemma AfterIngest(m: Meta, b: Bucket)
    requires !Frozen(m, b.day)
    ensures OnlyBucket(m, IngestInto(m, b), b)
    ensures Live(IngestInto(m, b), b) && !Verified(IngestInto(m, b), b)
    ensures forall cutoff :: !DeletionEligible(IngestInto(m, b), b.day, cutoff)
  {
    assert b in m.hot ==> !m.hot[b].isDelete;
    assert Live(IngestInto(m, b), b);
  }

  lemma AfterRecord(m: Meta, b: Bucket, n: nat, at: int)
    requires Live(m, b)
    ensures var m' := Apply(m, RecordVerified(b, n, at));
      && OnlyBucket(m, m', b)
      && Live(m', b)
      && m'.s3[b].status == Archived
      && m'.s3[b].count == n == m'.hot[b].count
      && (forall cutoff :: VerifiedBy(m', b, cutoff) <==> at <= cutoff)
  {
  }

  predicate RestoreStepOf(op: Op, b: Bucket) {
    (op.RequestRestore? || op.MarkRestored? || op.MarkRestoreFailed?) && op.bucket == b
  }

  /** The guard of a restore step. */
  predicate Granted(m: Meta, op: Op, b: Bucket)
    requires RestoreStepOf(op, b)
  {
    if op.RequestRestore? then Restorable(m, b) else b in m.s3 && m.s3[b].status == RestoreRequested
  }

  /** A restore step touches one archive row, and only of a bucket without a live HOT row. */
  lemma AfterRestoreStep(m: Meta, op: Op, b: Bucket)
    requires Inv(m) && RestoreStepOf(op, b)
    ensures var m' := Apply(m, op);
      && m'.hot == m.hot
      && OnlyBucket(m, m', b)
      && (!Granted(m, op, b) ==> m' == m)
      && (Granted(m, op, b) ==> b in m'.s3 && !Live(m', b) && (Restorable(m', b) <==> op.MarkRestoreFailed?))
  {
  }

  /** Every bucket of a claimed day is frozen and has an archive of as many rows. */
  lemma AfterClaim(m: Meta, day: nat, cutoff: int)
    requires Inv(m) && (DeletionPending(m, day) || DeletionEligible(m, day, cutoff))
    ensures Claimed(Apply(m, ClaimDeletion(day, cutoff)), day)
  {
    var m' := Apply(m, ClaimDeletion(day, cutoff));
    ApplyKeepsInv(m, ClaimDeletion(day, cutoff));
    var l :| l in m.hot && l.day == day;
    assert exists c :: c in m'.hot && c.day == day && m'.hot[c].isDelete by {
      if DeletionPending(m, day) {
        var c :| c in m.hot && c.day == day && m.hot[c].isDelete;
        assert m'.hot[c].isDelete;
      } else {
        assert m'.hot[l].isDelete;
      }
    }
  }

  ghost predicate Claimed(m: Meta, day: nat) {
    && Frozen(m, day)
    && (forall b :: b in m.hot && b.day == day ==>
          m.hot[b].isDelete && Verified(m, b) && m.s3[b].count == m.hot[b].count)
  }

  function Due(m: Meta, now: int): set<Bucket> {
    set b | b in m.s3 && Expiring(m.s3[b], now)
  }

  /** Nothing is due any more, and exactly what was due can be requested again. */
  ghost predicate Swept(m: Meta, m': Meta, now: int) {
    && m'.hot == m.hot
    && m'.s3.Keys == m.s3.Keys
    && Due(m', now) == {}
    && (forall b :: b in Due(m, now) ==> Restorable(m', b))
    && (forall b :: b in m'.s3 && b !in Due(m, now) ==> m'.s3[b] == m.s3[b])
    && (Due(m, now) == {} <==> m' == m)
  }

  lemma AfterExpiry(m: Meta, now: int)
    requires Inv(m)
    ensures Swept(m, Apply(m, ExpireRestores(now)), now)
  {
    var m' := Apply(m, ExpireRestores(now));
    var due := Due(m, now);
    if due == {} {
      forall b | b in m.s3 ensures m'.s3[b] == m.s3[b] {
        assert b !in due;
      }
      assert m'.s3 == m.s3;
    } else {
      var b :| b in due;
      assert m'.s3[b].status != m.s3[b].status;
    }
  }

  /** `IngestMetadataRepository`: each method is one transaction on the table. */
  class MetadataRepository {
    var hot: map<Bucket, HotRow>
    var s3: map<Bucket, ArchiveRow>

    function View(): Meta
      reads this
    {
      Meta(hot, s3)
    }

    ghost predicate Valid()
      reads this
    {
      Inv(View())
    }

    constructor ()
      ensures Valid() && View() == EMPTY
    {
      hot, s3 := map[], map[];
    }

    /** `hot_ingest_guard`: false stands for `ArchivedDayImmutableError`. An admitted event
        leaves its day without any archive that would let the day be claimed. */
    method HotIngestGuard(b: Bucket) returns (admitted: bool)
      requires Valid()
      modifies this
      ensures View() == Apply(old(View()), Ingest(b))
      ensures Valid() && Progress(old(View()), View()) && OnlyBucket(old(View()), View(), b)
      ensures admitted <==> !old(Frozen(View(), b.day))
      ensures admitted ==> Live(View(), b) && !Verified(View(), b)
      ensures admitted ==> forall cutoff :: !DeletionEligible(View(), b.day, cutoff)
      ensures !admitted ==> View() == old(View())
    {
      ApplyProgresses(View(), Ingest(b));
      admitted := forall c <- hot.Keys :: !(c.day == b.day && (hot[c].isDelete || hot[c].partitionDeleted));
      if !admitted {
        return;
      }
      if b !in hot {
        hot := hot[b := HotRow(0, false, false)];
      }
      if b in s3 {
        s3 := s3[b := s3[b].(verifiedAt := None)];
      }
      AfterIngest(old(View()), b);
    }

    /** `record_verified_archive`, called inside `archive_guard`, which finds no row when
        the HOT row is absent or deleted. */
    method RecordVerifiedArchive(b: Bucket, count: nat, at: int) returns (recorded: bool)
      requires Valid()
      modifies this
      ensures View() == Apply(old(View()), RecordVerified(b, count, at))
      ensures Valid() && Progress(old(View()), View()) && OnlyBucket(old(View()), View(), b)
      ensures recorded <==> old(Live(View(), b))
      ensures recorded ==> Live(View(), b) && s3[b].status == Archived && s3[b].count == count == hot[b].count
      ensures recorded ==> forall cutoff :: VerifiedBy(View(), b, cutoff) <==> at <= cutoff
      ensures !recorded ==> View() == old(View())
    {
      ApplyProgresses(View(), RecordVerified(b, count, at));
      recorded := b in hot && !hot[b].isDelete;
      if recorded {
        AfterRecord(View(), b, count, at);
        hot := hot[b := hot[b].(count := count)];
        s3 := s3[b := ArchiveRow(Archived, count, Some(at), None)];
      }
    }

    /** The two queries of `claim_partition_deletion`. */
    method Claimable(day: nat, cutoff: int) returns (pending: bool, eligible: bool)
      ensures pending <==> DeletionPending(View(), day)
      ensures eligible <==> DeletionEligible(View(), day, cutoff)
    {
      var mine := set b | b in hot && b.day == day;
      pending := exists b <- mine :: hot[b].isDelete && !hot[b].partitionDeleted;
      var live := set b | b in mine && !hot[b].isDelete;
      var unverified := set b | b in live && !VerifiedBy(Meta(hot, s3), b, cutoff);
      eligible := live != {} && unverified == {};
      assert forall b :: b in hot && !hot[b].isDelete && b.day == day <==> b in live;
      assert forall b :: b in live && !VerifiedBy(View(), b, cutoff) <==> b in unverified;
    }

    /** `claim_partition_deletion`: a claimed day has every one of its buckets frozen, with an
        archive of as many rows. */
    method ClaimPartitionDeletion(day: nat, cutoff: int) returns (claimed: bool)
      requires Valid()
      modifies this
      ensures View() == Apply(old(View()), ClaimDeletion(day, cutoff))
      ensures Valid() && Progress(old(View()), View()) && s3 == old(s3)
      ensures claimed <==> old(DeletionPending(View(), day) || DeletionEligible(View(), day, cutoff))
      ensures claimed ==> Claimed(View(), day)
    {
      ApplyProgresses(View(), ClaimDeletion(day, cutoff));
      var pending, eligible := Claimable(day, cutoff);
      claimed := pending || eligible;
      if claimed {
        AfterClaim(View(), day, cutoff);
      }
      if eligible && !pending {
        hot := map b | b in hot :: if b.day == day then hot[b].(isDelete := true) else hot[b];
      }
    }

    /** `mark_partition_deleted`: no deletion of the day is outstanding any more, and what is
        live, frozen or archived is what was. */
    method MarkPartitionDeleted(day: nat)
      requires Valid()
      modifies this
      ensures View() == Apply(old(View()), MarkDeleted(day))
      ensures Valid() && Progress(old(View()), View()) && s3 == old(s3)
      ensures !DeletionPending(View(), day)
      ensures forall d :: d != day ==> (DeletionPending(View(), d) <==> old(DeletionPending(View(), d)))
      ensures forall d :: Frozen(View(), d) <==> old(Frozen(View(), d))
      ensures forall b :: Live(View(), b) <==> old(Live(View(), b))
    {
      ApplyProgresses(View(), MarkDeleted(day));
      SameDaysAfterDeletion(View(), day);
      hot := map b | b in hot ::
        if b.day == day && hot[b].isDelete then hot[b].(partitionDeleted := true) else hot[b];
    }

    /** `request_restore`: refused while the HOT row is live or a restore is under way, so a
        granted request is refused when repeated. */
    method RequestRestoreOf(b: Bucket) returns (changed: bool)
      requires Valid()
      modifies this
      ensures View() == Apply(old(View()), RequestRestore(b))
      ensures Valid() && Progress(old(View()), View()) && OnlyBucket(old(View()), View(), b)
      ensures changed <==> old(Restorable(View(), b))
      ensures changed ==> s3[b].status == RestoreRequested && !Live(View(), b) && !Restorable(View(), b)
      ensures !changed ==> View() == old(View())
      ensures hot == old(hot)
    {
      changed := b in s3 && s3[b].status in {Archived, RestoreFailed, Expired} && !(b in hot && !hot[b].isDelete);
      if changed {
        s3 := s3[b := s3[b].(status := RestoreRequested, expiresAt := None)];
      }
      assert View() == Apply(old(View()), RequestRestore(b));
      AfterRestoreStep(old(View()), RequestRestore(b), b);
      ApplyProgresses(old(View()), RequestRestore(b));
    }

    /** `mark_restored`: only a requested restore completes, it runs out exactly at `expires`,
        and its HOT row is still gone. */
    method MarkRestoredAt(b: Bucket, expires: int) returns (changed: bool)
      requires Valid()
      modifies this
      ensures View() == Apply(old(View()), MarkRestored(b, expires))
      ensures Valid() && Progress(old(View()), View()) && OnlyBucket(old(View()), View(), b)
      ensures changed <==> old(b in s3 && s3[b].status == RestoreRequested)
      ensures changed ==> !Live(View(), b) && !Restorable(View(), b)
      ensures changed ==> forall now :: Expiring(s3[b], now) <==> expires <= now
      ensures !changed ==> View() == old(View())
      ensures hot == old(hot)
    {
      changed := b in s3 && s3[b].status == RestoreRequested;
      if changed {
        s3 := s3[b := s3[b].(status := Restored, expiresAt := Some(expires))];
      }
      assert View() == Apply(old(View()), MarkRestored(b, expires));
      AfterRestoreStep(old(View()), MarkRestored(b, expires), b);
      ApplyProgresses(old(View()), MarkRestored(b, expires));
    }

    /** `mark_restore_failed`: only a requested restore fails, and it can be requested again. */
    method MarkFailed(b: Bucket) returns (changed: bool)
      requires Valid()
      modifies this
      ensures View() == Apply(old(View()), MarkRestoreFailed(b))
      ensures Valid() && Progress(old(View()), View()) && OnlyBucket(old(View()), View(), b)
      ensures changed <==> old(b in s3 && s3[b].status == RestoreRequested)
      ensures changed ==> Restorable(View(), b)
      ensures !changed ==> View() == old(View())
      ensures hot == old(hot)
    {
      changed := b in s3 && s3[b].status == RestoreRequested;
      if changed {
        s3 := s3[b := s3[b].(status := RestoreFailed)];
      }
      assert View() == Apply(old(View()), MarkRestoreFailed(b));
      AfterRestoreStep(old(View()), MarkRestoreFailed(b), b);
      ApplyProgresses(old(View()), MarkRestoreFailed(b));
    }

    /** `expire_restores`: how many restores ran out; none that is due is left, and exactly
        those that were due have become requestable, the rest of the table staying. */
    method Expire(now: int) returns (count: nat)
      requires Valid()
      modifies this
      ensures View() == Apply(old(View()), ExpireRestores(now))
      ensures Valid() && Progress(old(View()), View())
      ensures count == |old(Due(View(), now))|
      ensures Swept(old(View()), View(), now)
    {
      count := |Due(Meta(hot, s3), now)|;
      s3 := map b | b in s3 :: if Expiring(s3[b], now) then s3[b].(status := Expired) else s3[b];
      assert View() == Apply(old(View()), ExpireRestores(now));
      AfterExpiry(old(View()), now);
      ApplyProgresses(old(View()), ExpireRestores(now));
    }
  }
}
