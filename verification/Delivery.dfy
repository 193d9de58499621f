/** The storage protocol together with the two Kafka topics and the rollup worker: raw
    messages are stored and published as validated ones, and validated messages make the
    rollup worker refresh minute buckets before it commits their offsets. */
module Delivery {
  import opened Telemetry
  import opened StorageProtocol
  import opened StorageInvariants
  import M = IngestMetadata

  /** A raw message decodes to an event or not at all. */
  datatype RawMessage = Decoded(event: Event) | Undecodable

  datatype RawPart = RawPart(log: seq<RawMessage>, committed: nat)

  datatype ValidatedPart = ValidatedPart(log: seq<Event>, position: nat, committed: nat)

  datatype WorkerPhase = Consuming | Flushing | Committing

  /** `failures` holds the partition and offset of every raw message with a durable failure
      record; `dirty` and `offsets` are the rollup worker's dirty buckets and pending offsets. */
  datatype Sys = Sys(
    db: Db, raw: seq<RawPart>, failures: set<(nat, nat)>, validated: seq<ValidatedPart>,
    dirty: set<Key>, offsets: map<nat, nat>, worker: WorkerPhase)

  function Init(rawParts: nat, validatedParts: nat): Sys {
    Sys(INIT, seq(rawParts, _ => RawPart([], 0)), {}, seq(validatedParts, _ => ValidatedPart([], 0, 0)),
        {}, map[], Consuming)
  }

  predicate InRaw(s: Sys, e: Event) { exists p :: 0 <= p < |s.raw| && Decoded(e) in s.raw[p].log }

  predicate Published(s: Sys, e: Event) { exists q :: 0 <= q < |s.validated| && e in s.validated[q].log }

  /** The processor is done with the message: it is published, or its failure is on record. */
  predicate Handled(s: Sys, p: nat, o: nat)
    requires p < |s.raw| && o < |s.raw[p].log|
  {
    (p, o) in s.failures || (s.raw[p].log[o].Decoded? && Published(s, s.raw[p].log[o].event))
  }

  datatype Move =
    | Store(step: Step)
    | ProduceRaw(p: nat, message: RawMessage)
    | Publish(q: nat, event: Event)
    | RecordFailure(p: nat)
    | CommitRaw(p: nat)
    | Consume(q: nat)
    | StartFlush
    | CommitValidated(q: nat)
    | FlushDone
    | CommitFails
    | WorkerCrash

  ghost predicate Can(s: Sys, move: Move) {
    match move
    case Store(step) =>
      && Enabled(s.db, step)
      && (step.StartInsert? || step.ClaimExisting? ==> InRaw(s, step.event))
      && (step.BeginRefresh? ==> step.owner == Backfill)
    case ProduceRaw(p, _) => p < |s.raw|
    case Publish(q, e) => q < |s.validated| && e.id in s.db.registry && s.db.registry[e.id] == e
    case RecordFailure(p) => p < |s.raw| && s.raw[p].committed < |s.raw[p].log|
    case CommitRaw(p) =>
      p < |s.raw| && s.raw[p].committed < |s.raw[p].log| && Handled(s, p, s.raw[p].committed)
    case Consume(q) => s.worker == Consuming && q < |s.validated| && s.validated[q].position < |s.validated[q].log|
    case StartFlush => s.worker == Consuming && s.dirty != {} && s.db.refresh == NoRefresh
    case CommitValidated(q) => s.worker == Committing && q in s.offsets && q < |s.validated|
    case FlushDone =>
      && s.worker == Committing
      && (forall q :: q in s.offsets && q < |s.validated| ==> s.validated[q].committed == s.offsets[q] + 1)
    case CommitFails => s.worker == Committing
    case WorkerCrash => true
  }

  function Rewound(parts: seq<ValidatedPart>): seq<ValidatedPart> {
    seq(|parts|, i requires 0 <= i < |parts| => parts[i].(position := parts[i].committed))
  }

  /** A flush that writes goes on to commit; one that fails keeps its dirty buckets. */
  function WorkerAfter(s: Sys, step: Step): WorkerPhase {
    if s.worker == Flushing && step.WriteRefresh? then Committing
    else if s.worker == Flushing && step.AbortRefresh? then Consuming
    else s.worker
  }

  ghost function Do(s: Sys, move: Move): Sys
    requires Can(s, move)
  {
    match move
    case Store(step) => s.(db := Apply(s.db, step), worker := WorkerAfter(s, step))
    case ProduceRaw(p, m) => s.(raw := s.raw[p := s.raw[p].(log := s.raw[p].log + [m])])
    case Publish(q, e) => s.(validated := s.validated[q := s.validated[q].(log := s.validated[q].log + [e])])
    case RecordFailure(p) => s.(failures := s.failures + {(p, s.raw[p].committed)})
    case CommitRaw(p) => s.(raw := s.raw[p := s.raw[p].(committed := s.raw[p].committed + 1)])
    case Consume(q) =>
      var part := s.validated[q];
      s.(validated := s.validated[q := part.(position := part.position + 1)],
         dirty := s.dirty + {KeyOf(part.log[part.position])}, offsets := s.offsets[q := part.position])
    case StartFlush => s.(db := Apply(s.db, BeginRefresh(Flush, Keys(s.dirty))), worker := Flushing)
    case CommitValidated(q) => s.(validated := s.validated[q := s.validated[q].(committed := s.offsets[q] + 1)])
    case FlushDone => s.(dirty := {}, offsets := map[], worker := Consuming)
    case CommitFails => s.(worker := Consuming)
    case WorkerCrash =>
      s.(db := if s.worker == Flushing && s.db.refresh.Refreshing? then Apply(s.db, AbortRefresh) else s.db,
         validated := Rewound(s.validated), dirty := {}, offsets := map[], worker := Consuming)
  }

  /** The rollup reflects the event, or the event's day is frozen and its rollup final. */
  predicate Covered(s: Sys, e: Event) { e in s.db.reflected || FrozenDay(s.db, DayOf(e)) }

  ghost predicate RawInv(s: Sys) {
    && (forall p :: 0 <= p < |s.raw| ==> s.raw[p].committed <= |s.raw[p].log|)
    && (forall p, o :: 0 <= p < |s.raw| && 0 <= o < s.raw[p].committed && o < |s.raw[p].log| ==> Handled(s, p, o))
    && (forall e :: e in Table(s.db) ==> InRaw(s, e))
  }

  ghost predicate RegistryInv(s: Sys) {
    && (forall id :: id in s.db.registry ==>
          s.db.registry[id] in Table(s.db) || FrozenDay(s.db, DayOf(s.db.registry[id])))
    && (forall q, o :: 0 <= q < |s.validated| && 0 <= o < |s.validated[q].log| ==>
          s.validated[q].log[o].id in s.db.registry && s.db.registry[s.validated[q].log[o].id] == s.validated[q].log[o])
  }

  ghost predicate OffsetsInv(s: Sys) {
    && (forall q :: 0 <= q < |s.validated| ==>
          s.validated[q].committed <= s.validated[q].position <= |s.validated[q].log|)
    && (forall q :: q in s.offsets && q < |s.validated| ==> s.offsets[q] < s.validated[q].position)
  }

  ghost predicate WorkerInv(s: Sys) {
    && (s.worker == Flushing <==> s.db.refresh.Refreshing? && s.db.refresh.owner == Flush)
    && (s.worker == Flushing ==> s.db.refresh.scope == Keys(s.dirty))
  }

  /** The rollup worker has read the message since the offset it would restart from, or before it. */
  predicate Consumed(s: Sys, e: Event) {
    exists q, o :: 0 <= q < |s.validated| && 0 <= o < |s.validated[q].log| && o < s.validated[q].position &&
      s.validated[q].log[o] == e
  }

  /** The rollup group has committed past the message. */
  predicate RollupCommitted(s: Sys, e: Event) {
    exists q, o :: 0 <= q < |s.validated| && 0 <= o < |s.validated[q].log| && o < s.validated[q].committed &&
      s.validated[q].log[o] == e
  }

  ghost predicate CoverInv(s: Sys) {
    && (forall e :: RollupCommitted(s, e) ==> Covered(s, e))
    && (forall e :: Consumed(s, e) ==> Covered(s, e) || (s.worker != Committing && KeyOf(e) in s.dirty))
    && (s.worker == Flushing && s.db.refresh.Refreshing? ==>
          forall e :: Consumed(s, e) && HourOf(e) in s.db.refresh.hours ==> Covered(s, e) || e in s.db.refresh.snap)
  }

  ghost predicate SysInv(s: Sys) {
    Inv(s.db) && RawInv(s) && RegistryInv(s) && OffsetsInv(s) && WorkerInv(s) && CoverInv(s)
  }

  lemma InitSysInv(rawParts: nat, validatedParts: nat)
    ensures SysInv(Init(rawParts, validatedParts))
  {
  }

  /** The database step a move performs, if any. */
  function DbStep(s: Sys, move: Move): Option<Step> {
    match move
    case Store(step) => Some(step)
    case StartFlush => Some(BeginRefresh(Flush, Keys(s.dirty)))
    case WorkerCrash => if s.worker == Flushing && s.db.refresh.Refreshing? then Some(AbortRefresh) else None
    case _ => None
  }

  lemma DbAfter(s: Sys, move: Move)
    requires Inv(s.db) && Can(s, move)
    ensures DbStep(s, move).Some? ==> Enabled(s.db, DbStep(s, move).value)
    ensures Do(s, move).db == if DbStep(s, move).None? then s.db else Apply(s.db, DbStep(s, move).value)
    ensures Inv(Do(s, move).db)
  {
    if DbStep(s, move).Some? { StepKeepsInv(s.db, DbStep(s, move).value); }
  }

  /** A refresh never takes an event out of the rollup, so what is covered stays covered. */
  lemma ReflectedGrows(db: Db, step: Step, e: Event)
    requires RollupInv(db) && Enabled(db, step) && e in db.reflected
    ensures e in Apply(db, step).reflected
  {
    if step.WriteRefresh? && InScope(db.refresh.scope, KeyOf(e)) && !FrozenDay(db, DayOf(e)) {
      ScopeHourRead(db.refresh.scope, db.refresh.hours, e);
    }
  }

  lemma CoveredForever(s: Sys, move: Move, e: Event)
    requires Inv(s.db) && Can(s, move) && Covered(s, e)
    ensures Covered(Do(s, move), e)
  {
    DbAfter(s, move);
    if DbStep(s, move).Some? {
      if e in s.db.reflected { ReflectedGrows(s.db, DbStep(s, move).value, e); }
      FrozenAfter(s.db, DbStep(s, move).value, DayOf(e));
    }
  }

  lemma TableAfterMove(s: Sys, move: Move, e: Event)
    requires Inv(s.db) && Can(s, move)
    ensures e in Table(Do(s, move).db) ==>
      e in Table(s.db) || (move.Store? && move.step.StartInsert? && move.step.event == e)
    ensures e in Table(s.db) || FrozenDay(s.db, DayOf(e)) ==>
      e in Table(Do(s, move).db) || FrozenDay(Do(s, move).db, DayOf(e))
  {
    DbAfter(s, move);
    if DbStep(s, move).Some? {
      TableAfter(s.db, DbStep(s, move).value);
      FrozenAfter(s.db, DbStep(s, move).value, DayOf(e));
    }
  }

  lemma InRawAfter(s: Sys, move: Move, e: Event)
    requires Can(s, move) && InRaw(s, e)
    ensures InRaw(Do(s, move), e)
  {
    var p :| 0 <= p < |s.raw| && Decoded(e) in s.raw[p].log;
    assert Decoded(e) in Do(s, move).raw[p].log;
  }

  lemma PublishedAfter(s: Sys, move: Move, e: Event)
    requires Can(s, move) && Published(s, e)
    ensures Published(Do(s, move), e)
  {
    var q :| 0 <= q < |s.validated| && e in s.validated[q].log;
    assert e in Do(s, move).validated[q].log;
  }

  lemma RawKept(s: Sys, move: Move)
    requires Inv(s.db) && RawInv(s) && Can(s, move)
    ensures RawInv(Do(s, move))
  {
    var s' := Do(s, move);
    forall p, o | 0 <= p < |s'.raw| && 0 <= o < s'.raw[p].committed && o < |s'.raw[p].log|
      ensures Handled(s', p, o)
    {
      assert o < |s.raw[p].log| && s'.raw[p].log[o] == s.raw[p].log[o];
      assert Handled(s, p, o);
      if (p, o) !in s.failures { PublishedAfter(s, move, s.raw[p].log[o].event); }
    }
    forall e | e in Table(s'.db) ensures InRaw(s', e) {
      TableAfterMove(s, move, e);
      InRawAfter(s, move, e);
    }
  }

  lemma RegistryAfter(s: Sys, move: Move)
    requires Inv(s.db) && Can(s, move)
    ensures forall id :: id in s.db.registry ==>
      id in Do(s, move).db.registry && Do(s, move).db.registry[id] == s.db.registry[id]
    ensures forall id :: id in Do(s, move).db.registry && id !in s.db.registry ==>
      Do(s, move).db.registry[id] in Table(Do(s, move).db)
  {
    DbAfter(s, move);
    if DbStep(s, move).Some? { TableAfter(s.db, DbStep(s, move).value); }
  }

  lemma RegistryKept(s: Sys, move: Move)
    requires Inv(s.db) && RegistryInv(s) && Can(s, move)
    ensures RegistryInv(Do(s, move))
  {
    var s' := Do(s, move);
    RegistryAfter(s, move);
    forall id | id in s'.db.registry
      ensures s'.db.registry[id] in Table(s'.db) || FrozenDay(s'.db, DayOf(s'.db.registry[id]))
    {
      if id in s.db.registry { TableAfterMove(s, move, s.db.registry[id]); }
    }
    forall q, o | 0 <= q < |s'.validated| && 0 <= o < |s'.validated[q].log|
      ensures var e := s'.validated[q].log[o]; e.id in s'.db.registry && s'.db.registry[e.id] == e
    {
      LogAfter(s, move, q, o);
    }
  }

  lemma LogAfter(s: Sys, move: Move, q: nat, o: nat)
    requires Can(s, move) && q < |Do(s, move).validated| && o < |Do(s, move).validated[q].log|
    ensures q < |s.validated|
    ensures o < |s.validated[q].log| ==> Do(s, move).validated[q].log[o] == s.validated[q].log[o]
    ensures o >= |s.validated[q].log| ==> move == Publish(q, Do(s, move).validated[q].log[o])
  {
  }

  lemma OffsetsKept(s: Sys, move: Move)
    requires OffsetsInv(s) && Can(s, move)
    ensures OffsetsInv(Do(s, move))
  {
  }

  lemma WorkerKept(s: Sys, move: Move)
    requires WorkerInv(s) && Can(s, move)
    ensures WorkerInv(Do(s, move))
  {
    match move {
      case Store(step) => WorkerKeptByStep(s, step);
      case _ =>
    }
  }

  lemma WorkerKeptByStep(s: Sys, step: Step)
    requires WorkerInv(s) && Can(s, Store(step))
    ensures WorkerInv(Do(s, Store(step)))
  {
  }

  /** What a move does to one validated partition. */
  lemma PartAfter(s: Sys, move: Move, q: nat)
    requires OffsetsInv(s) && Can(s, move) && q < |Do(s, move).validated|
    ensures |Do(s, move).validated| == |s.validated|
    ensures var part, part' := s.validated[q], Do(s, move).validated[q];
      && part.log <= part'.log
      && part'.committed <= part'.position <= |part.log|
      && part'.position <= part.position + (if move == Consume(q) then 1 else 0)
      && (move.WorkerCrash? ==> part'.position <= part.committed)
      && (part'.committed <= part.committed || (move == CommitValidated(q) && part'.committed <= part.position))
  {
  }

  lemma ConsumedAfter(s: Sys, move: Move, e: Event)
    requires OffsetsInv(s) && Can(s, move) && Consumed(Do(s, move), e)
    ensures Consumed(s, e) || (move.Consume? && e == s.validated[move.q].log[s.validated[move.q].position])
    ensures move.WorkerCrash? ==> RollupCommitted(s, e)
  {
    var s' := Do(s, move);
    var q, o :| 0 <= q < |s'.validated| && 0 <= o < |s'.validated[q].log| && o < s'.validated[q].position
      && s'.validated[q].log[o] == e;
    PartAfter(s, move, q);
    assert s.validated[q].log[o] == e;
  }

  lemma CommittedAfter(s: Sys, move: Move, e: Event)
    requires OffsetsInv(s) && Can(s, move) && RollupCommitted(Do(s, move), e)
    ensures RollupCommitted(s, e) || (move.CommitValidated? && Consumed(s, e))
  {
    var s' := Do(s, move);
    var q, o :| 0 <= q < |s'.validated| && 0 <= o < |s'.validated[q].log| && o < s'.validated[q].committed
      && s'.validated[q].log[o] == e;
    PartAfter(s, move, q);
    assert s.validated[q].log[o] == e;
  }

  /** A consumed message was published after its row was stored, so a refresh that reads its
      hour now finds the row, unless the day is frozen. */
  lemma ConsumedIsStored(s: Sys, e: Event)
    requires RegistryInv(s) && Consumed(s, e)
    ensures e in Table(s.db) || FrozenDay(s.db, DayOf(e))
  {
  }

  lemma CoverKeptFor(s: Sys, move: Move, e: Event)
    requires Inv(s.db) && OffsetsInv(s) && WorkerInv(s) && CoverInv(s) && Can(s, move)
    ensures var s' := Do(s, move);
      && (RollupCommitted(s', e) ==> Covered(s', e))
      && (Consumed(s', e) ==> Covered(s', e) || (s'.worker != Committing && KeyOf(e) in s'.dirty))
  {
    if Consumed(Do(s, move), e) { ConsumedAfter(s, move, e); }
    if RollupCommitted(Do(s, move), e) { CommittedAfter(s, move, e); }
    if Covered(s, e) {
      CoveredForever(s, move, e);
    } else if move.Store? && move.step.WriteRefresh? && s.worker == Flushing && Consumed(s, e) {
      ScopeHourRead(s.db.refresh.scope, s.db.refresh.hours, e);
    }
  }

  lemma FlushKeptFor(s: Sys, move: Move, e: Event)
    requires Inv(s.db) && RegistryInv(s) && OffsetsInv(s) && WorkerInv(s) && CoverInv(s) && Can(s, move)
    ensures var s' := Do(s, move);
      s'.worker == Flushing && s'.db.refresh.Refreshing? && Consumed(s', e) && HourOf(e) in s'.db.refresh.hours ==>
        Covered(s', e) || e in s'.db.refresh.snap
  {
    if Consumed(Do(s, move), e) { ConsumedAfter(s, move, e); }
    if Covered(s, e) {
      CoveredForever(s, move, e);
    } else if Consumed(s, e) {
      ConsumedIsStored(s, e);
      DbAfter(s, move);
    }
  }

  lemma MoveKeepsInv(s: Sys, move: Move)
    requires SysInv(s) && Can(s, move)
    ensures SysInv(Do(s, move))
  {
    DbAfter(s, move);
    RawKept(s, move);
    RegistryKept(s, move);
    OffsetsKept(s, move);
    WorkerKept(s, move);
    var s' := Do(s, move);
    forall e
      ensures RollupCommitted(s', e) ==> Covered(s', e)
      ensures Consumed(s', e) ==> Covered(s', e) || (s'.worker != Committing && KeyOf(e) in s'.dirty)
      ensures
        s'.worker == Flushing && s'.db.refresh.Refreshing? && Consumed(s', e) && HourOf(e) in s'.db.refresh.hours ==>
          Covered(s', e) || e in s'.db.refresh.snap
    {
      CoverKeptFor(s, move, e);
      FlushKeptFor(s, move, e);
    }
  }

  // What holds in every state of every run.

  ghost predicate IsRunOf(s: Sys, moves: seq<Move>)
    decreases |moves|
  {
    moves != [] ==> Can(s, moves[0]) && IsRunOf(Do(s, moves[0]), moves[1..])
  }

  ghost function Reached(s: Sys, moves: seq<Move>): Sys
    requires IsRunOf(s, moves)
    decreases |moves|
  {
    if moves == [] then s else Reached(Do(s, moves[0]), moves[1..])
  }

  lemma {:induction false} ReachedInv(s: Sys, moves: seq<Move>)
    requires SysInv(s) && IsRunOf(s, moves)
    ensures SysInv(Reached(s, moves))
    decreases |moves|
  {
    if moves != [] {
      MoveKeepsInv(s, moves[0]);
      ReachedInv(Do(s, moves[0]), moves[1..]);
    }
  }

  /** Some message about the event is still on its way: its raw message is uncommitted or has a
      failure record, or a validated one is not yet committed by the rollup group. */
  predicate Outstanding(s: Sys, e: Event) {
    || (exists p, o :: 0 <= p < |s.raw| && 0 <= o < |s.raw[p].log| && s.raw[p].log[o] == Decoded(e)
          && (s.raw[p].committed <= o || (p, o) in s.failures))
    || (exists q, o :: 0 <= q < |s.validated| && 0 <= o < |s.validated[q].log| && s.validated[q].log[o] == e
          && s.validated[q].committed <= o)
  }

  lemma UncoveredIsOutstanding(s: Sys, e: Event)
    requires SysInv(s) && e in Table(s.db) && !Covered(s, e)
    ensures Outstanding(s, e)
  {
    assert InRaw(s, e);
    var p :| 0 <= p < |s.raw| && Decoded(e) in s.raw[p].log;
    var o :| 0 <= o < |s.raw[p].log| && s.raw[p].log[o] == Decoded(e);
    if o < s.raw[p].committed && (p, o) !in s.failures {
      assert Handled(s, p, o);
      var q :| 0 <= q < |s.validated| && e in s.validated[q].log;
      var i :| 0 <= i < |s.validated[q].log| && s.validated[q].log[i] == e;
      if i < s.validated[q].committed { assert RollupCommitted(s, e); }
    }
  }

  /** Stale implies outstanding: in every reachable state, a stored event of an unfrozen day
      that the rollup does not count has a message on its way. Rolled-back inserts and worker
      crashes are included. */
  lemma StaleIsOutstanding(rawParts: nat, validatedParts: nat, moves: seq<Move>, e: Event)
    requires IsRunOf(Init(rawParts, validatedParts), moves)
    ensures var s := Reached(Init(rawParts, validatedParts), moves);
      e in Table(s.db) && !FrozenDay(s.db, DayOf(e)) && e !in s.db.reflected ==> Outstanding(s, e)
  {
    InitSysInv(rawParts, validatedParts);
    ReachedInv(Init(rawParts, validatedParts), moves);
    var s := Reached(Init(rawParts, validatedParts), moves);
    if e in Table(s.db) && !Covered(s, e) { UncoveredIsOutstanding(s, e); }
  }

  /** With nothing outstanding, the rollup of every unfrozen day counts exactly the stored
      events, in every reachable state. */
  lemma QuiescentRollupIsExact(rawParts: nat, validatedParts: nat, moves: seq<Move>, k: Key)
    requires IsRunOf(Init(rawParts, validatedParts), moves)
    ensures var s := Reached(Init(rawParts, validatedParts), moves);
      (forall e :: e in Table(s.db) && KeyOf(e) == k ==> !Outstanding(s, e)) &&
        !FrozenDay(s.db, DayOfMinute(k.minute)) ==>
        (set e | e in s.db.reflected && KeyOf(e) == k) == (set e | e in Table(s.db) && KeyOf(e) == k)
  {
    InitSysInv(rawParts, validatedParts);
    ReachedInv(Init(rawParts, validatedParts), moves);
    var s := Reached(Init(rawParts, validatedParts), moves);
    forall e | e in Table(s.db) && KeyOf(e) == k && !Outstanding(s, e) && !FrozenDay(s.db, DayOfMinute(k.minute))
      ensures e in s.db.reflected
    {
      if !Covered(s, e) { UncoveredIsOutstanding(s, e); }
    }
  }

  /** Committed-prefix safety: below a committed raw offset every message was published as a
      validated event or has a failure record, an undecodable one the latter; below a committed validated offset every
      message is reflected in the rollup, or its day is frozen. */
  lemma CommittedPrefixIsSafe(rawParts: nat, validatedParts: nat, moves: seq<Move>)
    requires IsRunOf(Init(rawParts, validatedParts), moves)
    ensures var s := Reached(Init(rawParts, validatedParts), moves);
      && (forall p, o :: 0 <= p < |s.raw| && 0 <= o < |s.raw[p].log| && o < s.raw[p].committed ==> Handled(s, p, o))
      && (forall q, o :: 0 <= q < |s.validated| && 0 <= o < |s.validated[q].log| && o < s.validated[q].committed ==>
            Covered(s, s.validated[q].log[o]))
  {
    InitSysInv(rawParts, validatedParts);
    ReachedInv(Init(rawParts, validatedParts), moves);
    var s := Reached(Init(rawParts, validatedParts), moves);
    forall q, o | 0 <= q < |s.validated| && 0 <= o < |s.validated[q].log| && o < s.validated[q].committed
      ensures Covered(s, s.validated[q].log[o])
    {
      assert RollupCommitted(s, s.validated[q].log[o]);
    }
  }

  /** All validated messages of one event id carry one identity, and ClickHouse has at most
      one row of it. */
  lemma OneIdentityPerEventId(rawParts: nat, validatedParts: nat, moves: seq<Move>)
    requires IsRunOf(Init(rawParts, validatedParts), moves)
    ensures var s := Reached(Init(rawParts, validatedParts), moves);
      && (forall x, y :: Published(s, x) && Published(s, y) && x.id == y.id ==> x == y)
      && (forall i, j :: i in s.db.rows && j in s.db.rows && s.db.rows[i].id == s.db.rows[j].id ==> i == j)
  {
    InitSysInv(rawParts, validatedParts);
    ReachedInv(Init(rawParts, validatedParts), moves);
    var s := Reached(Init(rawParts, validatedParts), moves);
    forall x | Published(s, x) ensures x.id in s.db.registry && s.db.registry[x.id] == x {
      var q :| 0 <= q < |s.validated| && x in s.validated[q].log;
      var o :| 0 <= o < |s.validated[q].log| && s.validated[q].log[o] == x;
    }
  }

  // A run through the whole system, so that the statements above are about something.

  const SAMPLE := Event(1, 7, "agent", "PROCESS_EXECUTION", 0, "a")
  const RAW_IN: seq<Move> := [ProduceRaw(0, Decoded(SAMPLE)), Store(StartInsert(SAMPLE)), Store(CommitInsert(1))]
  const VALIDATED_OUT: seq<Move> := [Publish(0, SAMPLE), CommitRaw(0)]
  const VALIDATED_IN: seq<Move> := [Consume(0), StartFlush]
  const ROLLED_UP: seq<Move> := [Store(ReadHours({0})), Store(WriteRefresh)]
  const COMMITTED: seq<Move> := [CommitValidated(0), FlushDone]

  const STORED := Db(map[0 := SAMPLE], 1, map[1 := SAMPLE], map[],
                     M.Meta(map[BucketOf(SAMPLE) := M.HotRow(0, false, false)], map[]), map[], {},
                     NoRefresh, Idle, {}, {}, {})
  const IN_STORE := Sys(STORED, [RawPart([Decoded(SAMPLE)], 0)], {}, [ValidatedPart([], 0, 0)], {}, map[], Consuming)
  const IN_TOPIC := Sys(
    STORED, [RawPart([Decoded(SAMPLE)], 1)], {}, [ValidatedPart([SAMPLE], 0, 0)], {}, map[], Consuming)
  const AT_FLUSH := Sys(
    STORED.(refresh := Refreshing(Flush, Keys({KeyOf(SAMPLE)}), {}, {})), [RawPart([Decoded(SAMPLE)], 1)], {},
    [ValidatedPart([SAMPLE], 1, 0)], {KeyOf(SAMPLE)}, map[0 := 0], Flushing)
  const AT_COMMIT := AT_FLUSH.(db := STORED.(reflected := {SAMPLE}), worker := Committing)
  const AT_REST := Sys(
    STORED.(reflected := {SAMPLE}), [RawPart([Decoded(SAMPLE)], 1)], {},
    [ValidatedPart([SAMPLE], 1, 1)], {}, map[], Consuming)

  lemma MovesCons(s: Sys, move: Move, rest: seq<Move>)
    requires Can(s, move) && IsRunOf(Do(s, move), rest)
    ensures IsRunOf(s, [move] + rest) && Reached(s, [move] + rest) == Reached(Do(s, move), rest)
  {
  }

  lemma {:induction false} MovesConcat(s: Sys, first: seq<Move>, second: seq<Move>)
    requires IsRunOf(s, first) && IsRunOf(Reached(s, first), second)
    ensures IsRunOf(s, first + second) && Reached(s, first + second) == Reached(Reached(s, first), second)
    decreases |first|
  {
    if first == [] {
      assert first + second == second;
    } else {
      MovesConcat(Do(s, first[0]), first[1..], second);
      assert (first + second)[1..] == first[1..] + second;
    }
  }

  lemma SampleIsStored()
    ensures IsRunOf(Init(1, 1), RAW_IN) && Reached(Init(1, 1), RAW_IN) == IN_STORE
  {
    var s0 := Init(1, 1);
    var s1 := Do(s0, RAW_IN[0]);
    assert s1.raw[0].log == [Decoded(SAMPLE)];
    assert s1.raw == [RawPart([Decoded(SAMPLE)], 0)];
    assert InRaw(s1, SAMPLE) by { assert Decoded(SAMPLE) in s1.raw[0].log; }
    var s2 := Do(s1, RAW_IN[1]);
    assert s2.db.pending == map[1 := SAMPLE];
    var s3 := Do(s2, RAW_IN[2]);
    assert s3 == IN_STORE;
    MovesCons(s2, RAW_IN[2], []);
    MovesCons(s1, RAW_IN[1], [RAW_IN[2]]);
    MovesCons(s0, RAW_IN[0], [RAW_IN[1], RAW_IN[2]]);
  }

  lemma SampleIsPublished()
    ensures IsRunOf(IN_STORE, VALIDATED_OUT) && Reached(IN_STORE, VALIDATED_OUT) == IN_TOPIC
  {
    var s1 := Do(IN_STORE, VALIDATED_OUT[0]);
    assert s1.validated[0].log == [SAMPLE];
    assert s1.validated == [ValidatedPart([SAMPLE], 0, 0)];
    assert Published(s1, SAMPLE) by { assert SAMPLE in s1.validated[0].log; }
    var s2 := Do(s1, VALIDATED_OUT[1]);
    assert s2 == IN_TOPIC;
    MovesCons(s1, VALIDATED_OUT[1], []);
    MovesCons(IN_STORE, VALIDATED_OUT[0], [VALIDATED_OUT[1]]);
  }

  lemma SampleIsConsumed()
    ensures IsRunOf(IN_TOPIC, VALIDATED_IN) && Reached(IN_TOPIC, VALIDATED_IN) == AT_FLUSH
  {
    var s1 := Do(IN_TOPIC, VALIDATED_IN[0]);
    assert s1.validated == [ValidatedPart([SAMPLE], 1, 0)] && s1.dirty == {KeyOf(SAMPLE)} && s1.offsets == map[0 := 0];
    var s2 := Do(s1, VALIDATED_IN[1]);
    assert s2 == AT_FLUSH;
    MovesCons(s1, VALIDATED_IN[1], []);
    MovesCons(IN_TOPIC, VALIDATED_IN[0], [VALIDATED_IN[1]]);
  }

  lemma SampleIsRead()
    ensures HourRows(AT_FLUSH.db, AT_FLUSH.db.refresh.scope, {0}) == {SAMPLE}
  {
    assert AT_FLUSH.db.rows[0] == SAMPLE;
    assert Table(AT_FLUSH.db) == {SAMPLE};
  }

  lemma SampleIsRolledUp()
    ensures IsRunOf(AT_FLUSH, ROLLED_UP) && Reached(AT_FLUSH, ROLLED_UP) == AT_COMMIT
  {
    SampleIsRead();
    var s1 := Do(AT_FLUSH, ROLLED_UP[0]);
    assert s1.db.refresh == Refreshing(Flush, Keys({KeyOf(SAMPLE)}), {0}, {SAMPLE});
    var s2 := Do(s1, ROLLED_UP[1]);
    assert s2 == AT_COMMIT;
    MovesCons(s1, ROLLED_UP[1], []);
    MovesCons(AT_FLUSH, ROLLED_UP[0], [ROLLED_UP[1]]);
  }

  lemma SampleIsCommitted()
    ensures IsRunOf(AT_COMMIT, COMMITTED) && Reached(AT_COMMIT, COMMITTED) == AT_REST
  {
    var s1 := Do(AT_COMMIT, COMMITTED[0]);
    assert s1.validated == [ValidatedPart([SAMPLE], 1, 1)];
    var s2 := Do(s1, COMMITTED[1]);
    assert s2 == AT_REST;
    MovesCons(s1, COMMITTED[1], []);
    MovesCons(AT_COMMIT, COMMITTED[0], [COMMITTED[1]]);
  }

  /** An event goes from the raw topic through ClickHouse and the validated topic into the rollup,
      and then nothing about it is outstanding. */
  lemma AnEventIsDelivered()
    ensures var moves := RAW_IN + VALIDATED_OUT + VALIDATED_IN + ROLLED_UP + COMMITTED;
      && IsRunOf(Init(1, 1), moves)
      && var s := Reached(Init(1, 1), moves);
         SAMPLE in Table(s.db) && SAMPLE in s.db.reflected && !Outstanding(s, SAMPLE)
  {
    SampleIsStored();
    SampleIsPublished();
    SampleIsConsumed();
    SampleIsRolledUp();
    SampleIsCommitted();
    MovesConcat(Init(1, 1), RAW_IN, VALIDATED_OUT);
    MovesConcat(Init(1, 1), RAW_IN + VALIDATED_OUT, VALIDATED_IN);
    MovesConcat(Init(1, 1), RAW_IN + VALIDATED_OUT + VALIDATED_IN, ROLLED_UP);
    MovesConcat(Init(1, 1), RAW_IN + VALIDATED_OUT + VALIDATED_IN + ROLLED_UP, COMMITTED);
    assert AT_REST.db.rows[0] == SAMPLE;
  }
}
