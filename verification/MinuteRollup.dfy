/** The minute table carried through the runs of the storage protocol: its rows are at every
    moment the aggregate of the events the protocol calls reflected. */
module MinuteRollup {
  import opened Telemetry
  import opened StorageProtocol
  import opened StorageInvariants
  import opened StorageTheorems
  import D = Delivery
  import T = RollupTables
  import R = RollupRanges
  import S = RollupSync
  import Y = RollupTheorems
  import Q = RollupSummary

  function CellOfKey(k: Key): T.Cell { T.Cell(k.endpoint, k.minute) }

  function FrozenDays(db: Db): set<int> {
    set b | b in db.meta.hot && (db.meta.hot[b].isDelete || db.meta.hot[b].partitionDeleted) :: b.day
  }

  /** The cells the pending refresh replaces. */
  predicate Touched(db: Db, c: T.Cell)
    requires db.refresh.Refreshing?
  {
    c.bucket >= 0 && InScope(db.refresh.scope, Key(c.endpoint, c.bucket)) && !FrozenDay(db, DayOfMinute(c.bucket))
  }

  /** The minute table after the pending refresh has replaced its cells by its snapshot. */
  function Written(db: Db, shape: T.Shape, t: T.Table): T.Table
    requires db.refresh.Refreshing?
  {
    map c | c in t.Keys + T.Cells(1, db.refresh.snap) ::
      if Touched(db, c) then T.Want(1, shape, db.refresh.snap, c) else T.At(t, c)
  }

  lemma FrozenDaysAre(db: Db, day: int)
    ensures day in FrozenDays(db) <==> day >= 0 && FrozenDay(db, day)
  {
  }

  lemma WrittenAt(db: Db, shape: T.Shape, t: T.Table, c: T.Cell)
    requires db.refresh.Refreshing?
    ensures T.At(Written(db, shape, t), c) ==
      if Touched(db, c) then T.Want(1, shape, db.refresh.snap, c) else T.At(t, c)
  {
    if c !in T.Cells(1, db.refresh.snap) {
      assert T.Group(1, db.refresh.snap, c) == {};
    }
  }

  /** The write is the refresh the synchronizer performs: of a range of minutes, or of a set of
      buckets. */
  lemma WriteIsARefresh(db: Db, shape: T.Shape, t: T.Table)
    requires db.refresh.Refreshing?
    ensures db.refresh.scope.Minutes? ==>
      S.MinutesRefreshed(shape, db.refresh.snap, t, Written(db, shape, t),
                         [R.Range(db.refresh.scope.from, db.refresh.scope.to)], FrozenDays(db))
    ensures db.refresh.scope.Keys? ==>
      S.CellsRefreshed(1, shape, db.refresh.snap, t, Written(db, shape, t),
                       S.OpenCells(set k | k in db.refresh.scope.keys :: CellOfKey(k), FrozenDays(db)))
  {
    var frozen := FrozenDays(db);
    forall c: T.Cell
      ensures db.refresh.scope.Minutes? ==>
        (Touched(db, c) <==> S.Due([R.Range(db.refresh.scope.from, db.refresh.scope.to)], frozen, c.bucket))
      ensures db.refresh.scope.Keys? ==>
        (Touched(db, c) <==> c in S.OpenCells(set k | k in db.refresh.scope.keys :: CellOfKey(k), frozen))
    {
      FrozenDaysAre(db, DayOfMinute(c.bucket));
      if db.refresh.scope.Minutes? {
        var r := R.Range(db.refresh.scope.from, db.refresh.scope.to);
        assert R.InAny([r], c.bucket) <==> R.In(r, c.bucket) by {
          assert [r][0] == r;
        }
      } else if c.bucket >= 0 {
        assert CellOfKey(Key(c.endpoint, c.bucket)) == c;
      }
    }
    forall c: T.Cell
      ensures T.At(Written(db, shape, t), c) ==
        if Touched(db, c) then T.Want(1, shape, db.refresh.snap, c) else T.At(t, c)
    {
      WrittenAt(db, shape, t, c);
    }
  }

  function TableAfterStep(db: Db, step: Step, shape: T.Shape, t: T.Table): T.Table {
    if step.WriteRefresh? && db.refresh.Refreshing? then Written(db, shape, t) else t
  }

  /** Every row is the aggregate of the reflected events of its minute. */
  ghost predicate Tracks(db: Db, shape: T.Shape, t: T.Table) {
    forall c :: T.At(t, c) == T.Want(1, shape, db.reflected, c)
  }

  /** The events that count after a write, cell by cell. */
  lemma ReplacedGroup(db: Db, c: T.Cell)
    requires RollupInv(db) && db.refresh.Refreshing?
    ensures T.Group(1, Replaced(db, db.refresh.scope, db.refresh.snap), c) ==
      T.Group(1, if Touched(db, c) then db.refresh.snap else db.reflected, c)
  {
    forall e | T.CellOf(1, e) == c
      ensures Touched(db, c) <==> InScope(db.refresh.scope, KeyOf(e)) && !FrozenDay(db, DayOf(e))
    {
      assert KeyOf(e) == Key(c.endpoint, c.bucket);
    }
  }

  /** What the protocol calls replacing is recomputing the touched cells. */
  lemma ReplacedIsRecomputed(db: Db)
    requires RollupInv(db) && db.refresh.Refreshing?
    ensures var cells := set c | c in T.Cells(1, db.reflected + db.refresh.snap) && Touched(db, c);
      Replaced(db, db.refresh.scope, db.refresh.snap) == Y.Recomputed(1, db.reflected, db.refresh.snap, cells)
  {
    var cells := set c | c in T.Cells(1, db.reflected + db.refresh.snap) && Touched(db, c);
    forall e | e in db.reflected + db.refresh.snap
      ensures T.CellOf(1, e) in cells <==> InScope(db.refresh.scope, KeyOf(e)) && !FrozenDay(db, DayOf(e))
    {
      assert T.CellOf(1, e) in T.Cells(1, db.reflected + db.refresh.snap);
      assert KeyOf(e) == Key(T.CellOf(1, e).endpoint, T.CellOf(1, e).bucket);
    }
  }

  lemma StepTracks(db: Db, step: Step, shape: T.Shape, t: T.Table)
    requires RollupInv(db) && Enabled(db, step) && Tracks(db, shape, t)
    ensures Tracks(Apply(db, step), shape, TableAfterStep(db, step, shape, t))
  {
    if step.WriteRefresh? {
      forall c ensures T.At(Written(db, shape, t), c) == T.Want(1, shape, Apply(db, step).reflected, c) {
        WrittenAt(db, shape, t, c);
        ReplacedGroup(db, c);
      }
    } else {
      assert Apply(db, step).reflected == db.reflected;
    }
  }

  ghost function TableAlong(db: Db, steps: seq<Step>, shape: T.Shape, t: T.Table): T.Table
    requires IsRun(db, steps)
    decreases |steps|
  {
    if steps == [] then t
    else TableAlong(Apply(db, steps[0]), steps[1..], shape, TableAfterStep(db, steps[0], shape, t))
  }

  lemma {:induction false} RunTracks(db: Db, steps: seq<Step>, shape: T.Shape, t: T.Table)
    requires Inv(db) && IsRun(db, steps) && Tracks(db, shape, t)
    ensures Tracks(After(db, steps), shape, TableAlong(db, steps, shape, t))
    decreases |steps|
  {
    if steps != [] {
      StepTracks(db, steps[0], shape, t);
      StepKeepsInv(db, steps[0]);
      RunTracks(Apply(db, steps[0]), steps[1..], shape, TableAfterStep(db, steps[0], shape, t));
    }
  }

  lemma KeyGroup(events: set<Event>, k: Key)
    ensures T.Group(1, events, CellOfKey(k)) == set e | e in events && KeyOf(e) == k
  {
    forall e: Event ensures T.CellOf(1, e) == CellOfKey(k) <==> KeyOf(e) == k {
    }
  }

  lemma EmptyTableTracks(shape: T.Shape)
    ensures Tracks(INIT, shape, map[])
  {
    forall c ensures T.Group(1, INIT.reflected, c) == {} {
    }
  }

  /** From an empty table on, in every run, every row of the minute table is the aggregate of the
      reflected events under its key. */
  lemma MinuteRowIsReflected(steps: seq<Step>, shape: T.Shape, k: Key)
    requires IsRun(INIT, steps)
    ensures T.At(TableAlong(INIT, steps, shape, map[]), CellOfKey(k)) == shape(RolledUp(After(INIT, steps), k))
  {
    InitInv();
    EmptyTableTracks(shape);
    RunTracks(INIT, steps, shape, map[]);
    KeyGroup(After(INIT, steps).reflected, k);
  }

  /** The row of a frozen minute is the aggregate of the archived events of that minute, when no
      row of the minute was left behind by a rolled-back transaction. */
  lemma FrozenRowIsTheArchive(steps: seq<Step>, shape: T.Shape, k: Key)
    requires IsRun(INIT, steps)
    ensures var db := After(INIT, steps);
      FrozenDay(db, DayOfMinute(k.minute)) && NoneTorn(db, k) ==>
        T.At(TableAlong(INIT, steps, shape, map[]), CellOfKey(k)) == shape(ArchivedUnder(db, k))
  {
    MinuteRowIsReflected(steps, shape, k);
    FrozenRollupIsTheArchive(steps, k);
  }

  /** Once its day is frozen, the row never changes, whatever the run goes on to do. */
  lemma FrozenRowNeverChanges(before: seq<Step>, after: seq<Step>, shape: T.Shape, k: Key)
    requires IsRun(INIT, before) && IsRun(After(INIT, before), after)
    requires FrozenDay(After(INIT, before), DayOfMinute(k.minute))
    ensures IsRun(INIT, before + after)
    ensures T.At(TableAlong(INIT, before + after, shape, map[]), CellOfKey(k)) ==
      T.At(TableAlong(INIT, before, shape, map[]), CellOfKey(k))
  {
    InitInv();
    ReachableInv(INIT, before);
    RunConcat(INIT, before, after);
    FrozenRollupNeverChanges(After(INIT, before), after, k);
    MinuteRowIsReflected(before, shape, k);
    MinuteRowIsReflected(before + after, shape, k);
  }

  // The same along the moves of the whole system.

  ghost function TableAlongMoves(s: D.Sys, moves: seq<D.Move>, shape: T.Shape, t: T.Table): T.Table
    requires D.IsRunOf(s, moves)
    decreases |moves|
  {
    if moves == [] then t
    else
      var step := D.DbStep(s, moves[0]);
      TableAlongMoves(D.Do(s, moves[0]), moves[1..], shape,
                      if step.None? then t else TableAfterStep(s.db, step.value, shape, t))
  }

  lemma {:induction false} MovesTrack(s: D.Sys, moves: seq<D.Move>, shape: T.Shape, t: T.Table)
    requires Inv(s.db) && D.IsRunOf(s, moves) && Tracks(s.db, shape, t)
    ensures Tracks(D.Reached(s, moves).db, shape, TableAlongMoves(s, moves, shape, t))
    decreases |moves|
  {
    if moves != [] {
      var step := D.DbStep(s, moves[0]);
      D.DbAfter(s, moves[0]);
      if step.Some? { StepTracks(s.db, step.value, shape, t); }
      MovesTrack(D.Do(s, moves[0]), moves[1..], shape,
                 if step.None? then t else TableAfterStep(s.db, step.value, shape, t));
    }
  }

  lemma MinuteTableTracks(rawParts: nat, validatedParts: nat, moves: seq<D.Move>, shape: T.Shape)
    requires D.IsRunOf(D.Init(rawParts, validatedParts), moves)
    ensures var init := D.Init(rawParts, validatedParts);
      Tracks(D.Reached(init, moves).db, shape, TableAlongMoves(init, moves, shape, map[]))
  {
    InitInv();
    EmptyTableTracks(shape);
    MovesTrack(D.Init(rawParts, validatedParts), moves, shape, map[]);
  }

  /** With nothing outstanding for a minute of an unfrozen day, its stored row is the aggregate of
      the events ClickHouse holds for it: what a live query would return. */
  lemma QuiescentRowIsLive(rawParts: nat, validatedParts: nat, moves: seq<D.Move>, shape: T.Shape, k: Key)
    requires D.IsRunOf(D.Init(rawParts, validatedParts), moves)
    ensures var s := D.Reached(D.Init(rawParts, validatedParts), moves);
      (forall e :: e in Table(s.db) && KeyOf(e) == k ==> !D.Outstanding(s, e)) &&
        !FrozenDay(s.db, DayOfMinute(k.minute)) ==>
        T.At(TableAlongMoves(D.Init(rawParts, validatedParts), moves, shape, map[]), CellOfKey(k)) ==
        T.Want(1, shape, Table(s.db), CellOfKey(k))
  {
    var s := D.Reached(D.Init(rawParts, validatedParts), moves);
    MinuteTableTracks(rawParts, validatedParts, moves, shape);
    D.QuiescentRollupIsExact(rawParts, validatedParts, moves, k);
    KeyGroup(s.db.reflected, k);
    KeyGroup(Table(s.db), k);
  }

  /** No minute of the request lies on a frozen day, and no stored event of it is still on its way. */
  ghost predicate Quiet(s: D.Sys, q: Q.Request) {
    && (forall m: nat :: Q.Selected(q, m) ==> !FrozenDay(s.db, DayOfMinute(m)))
    && (forall e :: e in Table(s.db) && Q.InSlice(q, T.CellOf(1, e)) ==> !D.Outstanding(s, e))
  }

  lemma QuietTableAgrees(rawParts: nat, validatedParts: nat, moves: seq<D.Move>, q: Q.Request)
    requires D.IsRunOf(D.Init(rawParts, validatedParts), moves)
    ensures var s := D.Reached(D.Init(rawParts, validatedParts), moves);
      Quiet(s, q) ==>
        Q.Agrees(TableAlongMoves(D.Init(rawParts, validatedParts), moves, Q.ByType, map[]), Table(s.db), q)
  {
    var s := D.Reached(D.Init(rawParts, validatedParts), moves);
    var t := TableAlongMoves(D.Init(rawParts, validatedParts), moves, Q.ByType, map[]);
    MinuteTableTracks(rawParts, validatedParts, moves, Q.ByType);
    forall c | Quiet(s, q) && Q.InSlice(q, c)
      ensures T.At(t, c) == T.Want(1, Q.ByType, Table(s.db), c)
    {
      if c.bucket >= 0 {
        var k := Key(c.endpoint, c.bucket);
        forall e | e in Table(s.db) && KeyOf(e) == k ensures !D.Outstanding(s, e) {
          assert T.CellOf(1, e) == c;
        }
        QuiescentRowIsLive(rawParts, validatedParts, moves, Q.ByType, k);
      } else {
        assert T.Group(1, s.db.reflected, c) == {} == T.Group(1, Table(s.db), c);
      }
    }
  }

  /** End to end: whatever the system did, the dashboard summary read from the stored minute table
      of a quiet request is the one counted from the stored events. */
  lemma QuietSummaryIsLive(rawParts: nat, validatedParts: nat, moves: seq<D.Move>, q: Q.Request, kind: string,
                           interval: int, start: int)
    requires D.IsRunOf(D.Init(rawParts, validatedParts), moves) && interval in Q.INTERVALS
    ensures var s := D.Reached(D.Init(rawParts, validatedParts), moves);
      var t := TableAlongMoves(D.Init(rawParts, validatedParts), moves, Q.ByType, map[]);
      Quiet(s, q) ==>
        && Q.SumRows(t, Q.SlicedRows(t, q)) == |Q.LiveEvents(Table(s.db), Q.Widened(q))|
        && Q.SumRows(t, Q.RowsOfType(t, q, kind)) == |Q.EventsOfType(Table(s.db), Q.Widened(q), kind)|
        && Q.SumRows(t, Q.RowsInInterval(t, q, interval, start)) ==
             |Q.EventsInInterval(Table(s.db), Q.Widened(q), interval, start)|
  {
    var s := D.Reached(D.Init(rawParts, validatedParts), moves);
    QuietTableAgrees(rawParts, validatedParts, moves, q);
    if Quiet(s, q) {
      var t := TableAlongMoves(D.Init(rawParts, validatedParts), moves, Q.ByType, map[]);
      Q.RollupEqualsLive(t, Table(s.db), q, kind, interval, start);
    }
  }
}
