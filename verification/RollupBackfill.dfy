/** The worker's backfill. Every chunk is one `refresh_range` call, which rereads the event table
    and the frozen days, so both may change between chunks. */
module RollupBackfill {
  import opened Basics
  import opened Telemetry
  import opened RollupRanges
  import opened RollupTables
  import opened RollupSync

  /** The minute a backfill reaches back to, and the one after the last. */
  function BackfillRange(now: int, hours: int): Range {
    Range(FloorMinute(now) - hours * HOUR, FloorMinute(now) + 1)
  }

  /** Minutes a backfill refreshes: all of the range, or the ones missing and the overlap. */
  predicate Target(coverage: set<int>, range: Range, overlap: int, forceFull: bool, m: int) {
    In(range, m) && (forceFull || m !in coverage || m >= range.end - overlap)
  }

  lemma AlignedBounds(lo: int, hi: int)
    ensures CoverageBounds(lo * MILLIS_PER_MINUTE, hi * MILLIS_PER_MINUTE) == Range(lo, hi)
  {
  }

  method TargetRanges(coverage: set<int>, range: Range, overlap: int, forceFull: bool) returns (ranges: seq<Range>)
    requires range.start < range.end && overlap >= 1
    ensures Tidy(ranges) && forall m :: InAny(ranges, m) <==> Target(coverage, range, overlap, forceFull, m)
  {
    if forceFull {
      SingleDue(range, {});
      ranges := MergeRanges([range]);
      forall m ensures InAny(ranges, m) <==> In(range, m) { assert Due([range], {}, m) <==> InAny([range], m); }
    } else {
      AlignedBounds(range.start, range.end);
      var missing := MissingRanges(coverage, range.start * MILLIS_PER_MINUTE, range.end * MILLIS_PER_MINUTE);
      var tail := Range(Most(range.start, range.end - overlap), range.end);
      AppendedMinutes(missing, tail);
      ranges := MergeRanges(missing + [tail]);
    }
  }

  /** What a refresh call finds: the events in ClickHouse and the frozen days. */
  datatype World = World(events: set<Event>, frozen: set<int>)

  datatype Call = Call(range: Range, world: World)

  datatype Stored = Stored(activity: Table, dimensions: Table, coverage: set<int>)

  function Contents(rollups: DashboardRollups): Stored
    reads rollups
  {
    Stored(rollups.activity, rollups.dimensions, rollups.coverage)
  }

  /** The call brings the minute, or the hour, up to date. */
  ghost predicate MinuteDue(call: Call, m: int) { Due([call.range], call.world.frozen, m) }

  ghost predicate CellDue(width: int, call: Call, bucket: int) {
    if width == 1 then MinuteDue(call, bucket) else HourDue([call.range], call.world.frozen, bucket)
  }

  ghost predicate Covers(calls: seq<Call>, m: int) { exists i :: 0 <= i < |calls| && MinuteDue(calls[i], m) }

  /** A row after some calls: the last call that had the cell due has written it. */
  ghost function RowAfter(width: int, shape: Shape, calls: seq<Call>, c: Cell, row: map<string, nat>): map<string, nat>
    requires width > 0
    decreases |calls|
  {
    if calls == [] then row
    else
      var last := calls[|calls| - 1];
      if CellDue(width, last, c.bucket) then Want(width, shape, last.world.events, c)
      else RowAfter(width, shape, calls[..|calls| - 1], c, row)
  }

  /** `after` is what the calls, in this order, make of `before`. */
  ghost predicate Refreshed(shapes: Shapes, calls: seq<Call>, before: Stored, after: Stored) {
    && (forall c :: At(after.activity, c) == RowAfter(1, shapes.minute, calls, c, At(before.activity, c)))
    && (forall c :: At(after.dimensions, c) == RowAfter(HOUR, shapes.hour, calls, c, At(before.dimensions, c)))
    && (forall m :: m in after.coverage <==> m in before.coverage || Covers(calls, m))
  }

  lemma CoversMore(calls: seq<Call>, call: Call, m: int)
    ensures Covers(calls + [call], m) <==> Covers(calls, m) || MinuteDue(call, m)
  {
    if Covers(calls, m) {
      var i :| 0 <= i < |calls| && MinuteDue(calls[i], m);
      assert (calls + [call])[i] == calls[i];
    }
    if MinuteDue(call, m) {
      assert (calls + [call])[|calls|] == call;
    }
  }

  lemma RefreshedMore(shapes: Shapes, calls: seq<Call>, call: Call, s: Stored, t: Stored, u: Stored)
    requires Refreshed(shapes, calls, s, t)
    requires MinutesRefreshed(shapes.minute, call.world.events, t.activity, u.activity, [call.range], call.world.frozen)
    requires HoursRefreshed(shapes.hour, call.world.events, t.dimensions, u.dimensions, [call.range], call.world.frozen)
    requires CoverageGrown(t.coverage, u.coverage, [call.range], call.world.frozen)
    ensures Refreshed(shapes, calls + [call], s, u)
  {
    var more := calls + [call];
    assert more[|more| - 1] == call && more[..|more| - 1] == calls;
    forall m ensures m in u.coverage <==> m in s.coverage || Covers(more, m) {
      CoversMore(calls, call, m);
    }
  }

  function RangesOf(calls: seq<Call>): seq<Range> {
    seq(|calls|, i requires 0 <= i < |calls| => calls[i].range)
  }

  lemma RangesOfMore(calls: seq<Call>, call: Call)
    ensures RangesOf(calls + [call]) == RangesOf(calls) + [call.range]
  {
  }

  /** The i-th call finds the i-th world. */
  ghost predicate Finds(calls: seq<Call>, world: nat -> World) {
    forall i :: 0 <= i < |calls| ==> calls[i].world == world(i)
  }

  /** The chunks lie one behind the other, none is longer than `chunk`, and together they are
      the range: every minute of it is in exactly one chunk. */
  ghost predicate Chunked(chunks: seq<Range>, range: Range, chunk: nat) {
    && (forall i :: 0 <= i < |chunks| ==>
          chunks[i].start < chunks[i].end <= chunks[i].start + chunk && chunks[i].end <= range.end)
    && (forall i, j :: 0 <= i < j < |chunks| ==> chunks[i].end <= chunks[j].start)
    && (forall m :: InAny(chunks, m) <==> In(range, m))
  }

  lemma ChunkMore(chunks: seq<Range>, start: int, cursor: int, end: int, chunk: nat)
    requires start <= cursor < end <= cursor + chunk && Chunked(chunks, Range(start, cursor), chunk)
    ensures Chunked(chunks + [Range(cursor, end)], Range(start, end), chunk)
  {
    AppendedMinutes(chunks, Range(cursor, end));
  }

  /** The chunks of one range, one refresh call each, after the calls made so far. */
  method RefreshChunks(rollups: DashboardRollups, shapes: Shapes, world: nat -> World, ghost start: Stored,
                       calls: seq<Call>, range: Range, chunk: nat)
    returns (calls': seq<Call>, ghost chunks: seq<Range>)
    requires range.start < range.end && chunk >= 1
    requires Finds(calls, world) && Refreshed(shapes, calls, start, Contents(rollups))
    modifies rollups
    ensures Chunked(chunks, range, chunk) && RangesOf(calls') == RangesOf(calls) + chunks
    ensures Finds(calls', world) && Refreshed(shapes, calls', start, Contents(rollups))
  {
    calls', chunks := calls, [];
    var cursor := range.start;
    while cursor < range.end
      invariant range.start <= cursor <= range.end && Chunked(chunks, Range(range.start, cursor), chunk)
      invariant RangesOf(calls') == RangesOf(calls) + chunks
      invariant Finds(calls', world) && Refreshed(shapes, calls', start, Contents(rollups))
      decreases range.end - cursor
    {
      var end := if cursor + chunk < range.end then cursor + chunk else range.end;
      var call := Call(Range(cursor, end), world(|calls'|));
      ghost var before := Contents(rollups);
      var done := rollups.RefreshRange(shapes, call.world.events, call.range, call.world.frozen);
      RefreshedMore(shapes, calls', call, start, before, Contents(rollups));
      RangesOfMore(calls', call);
      ChunkMore(chunks, range.start, cursor, end, chunk);
      calls', chunks := calls' + [call], chunks + [call.range];
      cursor := end;
    }
  }

  ghost predicate OpenThroughout(calls: seq<Call>, day: int) {
    forall i :: 0 <= i < |calls| ==> day !in calls[i].world.frozen
  }

  ghost predicate Short(ranges: seq<Range>, chunk: nat) {
    forall i :: 0 <= i < |ranges| ==> ranges[i].start < ranges[i].end <= ranges[i].start + chunk
  }

  lemma {:induction false} MinutesConcat(a: seq<Range>, b: seq<Range>, m: int)
    ensures InAny(a + b, m) <==> InAny(a, m) || InAny(b, m)
    decreases |b|
  {
    if b == [] {
      assert a + b == a;
    } else {
      assert a + b == (a + [b[0]]) + b[1..] && b == [b[0]] + b[1..];
      MinutesConcat(a + [b[0]], b[1..], m);
      InAnyAppend(a, b[0], m);
      InAnyCons(b[0], b[1..], m);
    }
  }

  /** The calls made so far are about the first `n` targets. */
  ghost predicate UpTo(ranges: seq<Range>, targets: seq<Range>, n: nat)
    requires n <= |targets|
  {
    forall m :: InAny(ranges, m) <==> InAny(targets[..n], m)
  }

  lemma UpToNext(ranges: seq<Range>, targets: seq<Range>, n: nat, chunks: seq<Range>, chunk: nat)
    requires n < |targets| && UpTo(ranges, targets, n) && Chunked(chunks, targets[n], chunk) && Short(ranges, chunk)
    ensures UpTo(ranges + chunks, targets, n + 1) && Short(ranges + chunks, chunk)
  {
    assert targets[..n + 1] == targets[..n] + [targets[n]];
    forall m ensures InAny(ranges + chunks, m) <==> InAny(targets[..n + 1], m) {
      MinutesConcat(ranges, chunks, m);
      InAnyAppend(targets[..n], targets[n], m);
    }
  }

  /** `_backfill`: the calls are about exactly the target minutes, none reaches too far, and the
      tables are what these calls make of them. Every minute of the range whose day no call
      found frozen is covered afterwards. */
  method Backfill(rollups: DashboardRollups, shapes: Shapes, world: nat -> World, now: int, hours: int, overlap: int,
                  chunkHours: int, forceFull: bool)
    returns (done: bool, calls: seq<Call>)
    modifies rollups
    ensures done <==> hours >= 1 && overlap >= 1 && chunkHours >= 1
    ensures !done ==> unchanged(rollups)
    ensures done ==> Finds(calls, world) && Short(RangesOf(calls), chunkHours * HOUR)
    ensures done ==> forall m :: InAny(RangesOf(calls), m) <==>
      Target(old(rollups.coverage), BackfillRange(now, hours), overlap, forceFull, m)
    ensures done ==> Refreshed(shapes, calls, old(Contents(rollups)), Contents(rollups))
    ensures done ==> forall m :: In(BackfillRange(now, hours), m) && OpenThroughout(calls, DayOfMinute(m)) ==>
      m in rollups.coverage
  {
    calls := [];
    if hours < 1 || overlap < 1 || chunkHours < 1 { return false, []; }
    var range := BackfillRange(now, hours);
    var targets := TargetRanges(rollups.coverage, range, overlap, forceFull);
    ghost var start := Contents(rollups);
    for i := 0 to |targets|
      invariant Finds(calls, world) && Refreshed(shapes, calls, start, Contents(rollups))
      invariant UpTo(RangesOf(calls), targets, i) && Short(RangesOf(calls), chunkHours * HOUR)
    {
      ghost var ranges := RangesOf(calls);
      ghost var chunks;
      calls, chunks := RefreshChunks(rollups, shapes, world, start, calls, targets[i], chunkHours * HOUR);
      UpToNext(ranges, targets, i, chunks, chunkHours * HOUR);
    }
    assert targets[..|targets|] == targets;
    forall m | In(range, m) && OpenThroughout(calls, DayOfMinute(m)) ensures m in rollups.coverage {
      if m !in start.coverage { AskedIsCovered(calls, m); }
    }
    return true, calls;
  }

  lemma AskedIsCovered(calls: seq<Call>, m: int)
    requires InAny(RangesOf(calls), m) && OpenThroughout(calls, DayOfMinute(m))
    ensures Covers(calls, m)
  {
    var i :| 0 <= i < |RangesOf(calls)| && In(RangesOf(calls)[i], m);
    SingleDue(calls[i].range, calls[i].world.frozen);
    assert MinuteDue(calls[i], m);
  }

  // What the log of calls means for one row.

  /** Frozen days stay frozen from call to call. */
  ghost predicate Growing(calls: seq<Call>) {
    forall i, j :: 0 <= i <= j < |calls| ==> calls[i].world.frozen <= calls[j].world.frozen
  }

  lemma OpenAtTheEnd(calls: seq<Call>, day: int)
    requires Growing(calls) && calls != [] && day !in calls[|calls| - 1].world.frozen
    ensures OpenThroughout(calls, day)
  {
  }

  /** The row is due in call `i` and in no later one. */
  ghost predicate LastDue(width: int, calls: seq<Call>, i: nat, bucket: int) {
    i < |calls| && CellDue(width, calls[i], bucket) && forall j :: i < j < |calls| ==> !CellDue(width, calls[j], bucket)
  }

  lemma {:induction false} RowOfLastDue(width: int, shape: Shape, calls: seq<Call>, i: nat, c: Cell,
                                        row: map<string, nat>)
    requires width > 0 && LastDue(width, calls, i, c.bucket)
    ensures RowAfter(width, shape, calls, c, row) == Want(width, shape, calls[i].world.events, c)
    decreases |calls|
  {
    if i < |calls| - 1 {
      var fewer := calls[..|calls| - 1];
      assert !CellDue(width, calls[|calls| - 1], c.bucket);
      assert forall j :: 0 <= j < |fewer| ==> fewer[j] == calls[j];
      RowOfLastDue(width, shape, fewer, i, c, row);
    }
  }

  lemma {:induction false} RowNeverDue(width: int, shape: Shape, calls: seq<Call>, c: Cell, row: map<string, nat>)
    requires width > 0 && forall i :: 0 <= i < |calls| ==> !CellDue(width, calls[i], c.bucket)
    ensures RowAfter(width, shape, calls, c, row) == row
    decreases |calls|
  {
    if calls != [] {
      assert !CellDue(width, calls[|calls| - 1], c.bucket);
      RowNeverDue(width, shape, calls[..|calls| - 1], c, row);
    }
  }

  /** Frozen from the first call on: no row of the day changes, in either table, whatever the
      calls refresh around it. */
  lemma FrozenRowsStay(shapes: Shapes, calls: seq<Call>, before: Stored, after: Stored, c: Cell)
    requires Refreshed(shapes, calls, before, after) && Growing(calls) && calls != []
    ensures DayOfMinute(c.bucket) in calls[0].world.frozen ==> At(after.activity, c) == At(before.activity, c)
    ensures DayOfHour(c.bucket) in calls[0].world.frozen ==> At(after.dimensions, c) == At(before.dimensions, c)
  {
    if DayOfMinute(c.bucket) in calls[0].world.frozen {
      forall i | 0 <= i < |calls| ensures !CellDue(1, calls[i], c.bucket) {
        assert calls[0].world.frozen <= calls[i].world.frozen;
      }
      RowNeverDue(1, shapes.minute, calls, c, At(before.activity, c));
    }
    if DayOfHour(c.bucket) in calls[0].world.frozen {
      forall i | 0 <= i < |calls| ensures !CellDue(HOUR, calls[i], c.bucket) {
        assert calls[0].world.frozen <= calls[i].world.frozen;
      }
      RowNeverDue(HOUR, shapes.hour, calls, c, At(before.dimensions, c));
    }
  }

  /** Open up to the last call: a target minute is exact for the events its call found. */
  lemma OpenRowsAreExact(shapes: Shapes, calls: seq<Call>, before: Stored, after: Stored, i: nat, c: Cell)
    requires Refreshed(shapes, calls, before, after) && Growing(calls)
    requires i < |calls| && In(calls[i].range, c.bucket) && DayOfMinute(c.bucket) !in calls[|calls| - 1].world.frozen
    requires forall j :: i < j < |calls| ==> !In(calls[j].range, c.bucket)
    ensures At(after.activity, c) == Want(1, shapes.minute, calls[i].world.events, c)
  {
    OpenAtTheEnd(calls, DayOfMinute(c.bucket));
    forall j | 0 <= j < |calls| ensures CellDue(1, calls[j], c.bucket) <==> In(calls[j].range, c.bucket) {
      SingleDue(calls[j].range, calls[j].world.frozen);
    }
    RowOfLastDue(1, shapes.minute, calls, i, c, At(before.activity, c));
  }

  /** When no day of the range is frozen, the coverage check accepts the range after a
      backfill. */
  lemma BackfilledRangeIsCovered(coverage: set<int>, range: Range)
    requires range.start < range.end && forall m :: In(range, m) ==> m in coverage
    ensures CoversRange(coverage, range.start * MILLIS_PER_MINUTE, range.end * MILLIS_PER_MINUTE)
  {
    AlignedBounds(range.start, range.end);
    CoversIffNothingMissing(coverage, range.start * MILLIS_PER_MINUTE, range.end * MILLIS_PER_MINUTE);
  }
}
