/** `DashboardRollupSynchronizer` and the store's replace operations: windowed queries bring
    exactly the asked buckets up to date and touch nothing else. */
module RollupSync {
  import opened Telemetry
  import opened RollupRanges
  import opened RollupTables

  const HOURS_PER_DAY := 24

  datatype Shapes = Shapes(minute: Shape, hour: Shape)

  function DayOfHour(h: int): int { h / HOURS_PER_DAY }

  lemma DayOfMinuteOfHour(m: int)
    ensures DayOfHour(m / HOUR) == DayOfMinute(m)
  {
  }

  // What a refresh of some minutes does to the tables and to the coverage.

  ghost predicate Due(rs: seq<Range>, frozen: set<int>, m: int) { InAny(rs, m) && DayOfMinute(m) !in frozen }

  /** Some minute of the hour is due. */
  ghost predicate HourDue(rs: seq<Range>, frozen: set<int>, h: int) { exists m :: Due(rs, frozen, m) && m / HOUR == h }

  ghost predicate MinutesRefreshed(shape: Shape, events: set<Event>, before: Table, after: Table, rs: seq<Range>,
                                   frozen: set<int>) {
    forall c :: At(after, c) == if Due(rs, frozen, c.bucket) then Want(1, shape, events, c) else At(before, c)
  }

  ghost predicate HoursRefreshed(shape: Shape, events: set<Event>, before: Table, after: Table, rs: seq<Range>,
                                 frozen: set<int>) {
    forall c :: At(after, c) == if HourDue(rs, frozen, c.bucket) then Want(HOUR, shape, events, c) else At(before, c)
  }

  ghost predicate CoverageGrown(before: set<int>, after: set<int>, rs: seq<Range>, frozen: set<int>) {
    forall m :: m in after <==> m in before || Due(rs, frozen, m)
  }

  lemma DueAppend(rs: seq<Range>, r: Range, frozen: set<int>)
    ensures forall m :: Due(rs + [r], frozen, m) <==> Due(rs, frozen, m) || Due([r], frozen, m)
    ensures forall h :: HourDue(rs + [r], frozen, h) <==> HourDue(rs, frozen, h) || HourDue([r], frozen, h)
  {
    forall m ensures Due(rs + [r], frozen, m) <==> Due(rs, frozen, m) || Due([r], frozen, m) {
      InAnyAppend(rs, r, m);
      InAnyCons(r, [], m);
      assert [r] + [] == [r];
    }
    forall h ensures HourDue(rs + [r], frozen, h) <==> HourDue(rs, frozen, h) || HourDue([r], frozen, h) {
      if HourDue(rs, frozen, h) {
        var m :| Due(rs, frozen, m) && m / HOUR == h;
        assert Due(rs + [r], frozen, m);
      }
      if HourDue([r], frozen, h) {
        var m :| Due([r], frozen, m) && m / HOUR == h;
        assert Due(rs + [r], frozen, m);
      }
    }
  }

  lemma SameDue(rs: seq<Range>, ss: seq<Range>, frozen: set<int>, gone: set<int>)
    requires forall m :: Due(rs, frozen, m) <==> Due(ss, gone, m)
    ensures forall h :: HourDue(rs, frozen, h) <==> HourDue(ss, gone, h)
  {
  }

  // One segment.

  lemma HourBelow(lo: int, h: int)
    ensures ExpandDown(HOUR, lo) % HOUR == 0
    ensures ExpandDown(HOUR, lo) <= h * HOUR <==> lo < h * HOUR + HOUR
  {
    var q := lo / HOUR;
    assert lo == q * HOUR + lo % HOUR;
  }

  lemma HourAbove(hi: int, h: int)
    ensures ExpandUp(HOUR, hi) % HOUR == 0
    ensures h * HOUR < ExpandUp(HOUR, hi) <==> h * HOUR < hi
  {
    var q := hi / HOUR;
    assert hi == q * HOUR + hi % HOUR;
    assert ExpandUp(HOUR, hi) == if hi % HOUR == 0 then q * HOUR else q * HOUR + HOUR;
  }

  lemma ExpandedHours(lo: int, hi: int, h: int)
    requires lo < hi
    ensures ExpandDown(HOUR, lo) % HOUR == 0 && ExpandUp(HOUR, hi) % HOUR == 0
    ensures Inside(HOUR, h, ExpandDown(HOUR, lo), ExpandUp(HOUR, hi)) <==> HourDue([Range(lo, hi)], {}, h)
  {
    var rs := [Range(lo, hi)];
    HourBelow(lo, h);
    HourAbove(hi, h);
    if Inside(HOUR, h, ExpandDown(HOUR, lo), ExpandUp(HOUR, hi)) {
      var m := if h * HOUR < lo then lo else h * HOUR;
      assert In(rs[0], m);
      assert Due(rs, {}, m);
    }
    if HourDue(rs, {}, h) {
      var m :| Due(rs, {}, m) && m / HOUR == h;
      assert In(rs[0], m);
    }
  }

  lemma SegmentMinutes(shape: Shape, events: set<Event>, t: Table, lo: int, hi: int)
    requires lo < hi
    ensures var after := ReplaceRange(1, t, lo, hi, Query(1, shape, events, lo, hi, None));
      MinutesRefreshed(shape, events, t, after, [Range(lo, hi)], {})
  {
    var after := ReplaceRange(1, t, lo, hi, Query(1, shape, events, lo, hi, None));
    var rs := [Range(lo, hi)];
    forall c ensures At(after, c) == if Due(rs, {}, c.bucket) then Want(1, shape, events, c) else At(t, c) {
      ReplaceRangeAt(1, shape, events, t, lo, hi, c);
      assert Due(rs, {}, c.bucket) <==> In(rs[0], c.bucket);
    }
  }

  lemma SegmentHours(shape: Shape, events: set<Event>, t: Table, lo: int, hi: int)
    requires lo < hi
    ensures var l, u := ExpandDown(HOUR, lo), ExpandUp(HOUR, hi);
      var after := ReplaceRange(HOUR, t, l, u, Query(HOUR, shape, events, l, u, None));
      HoursRefreshed(shape, events, t, after, [Range(lo, hi)], {})
  {
    var l, u := ExpandDown(HOUR, lo), ExpandUp(HOUR, hi);
    var after := ReplaceRange(HOUR, t, l, u, Query(HOUR, shape, events, l, u, None));
    forall c
      ensures At(after, c) == if HourDue([Range(lo, hi)], {}, c.bucket) then Want(HOUR, shape, events, c) else At(t, c)
    {
      ExpandedHours(lo, hi, c.bucket);
      ReplaceRangeAt(HOUR, shape, events, t, l, u, c);
    }
  }

  lemma MinutesCompose(shape: Shape, events: set<Event>, a: Table, b: Table, c: Table, rs: seq<Range>, r: Range,
                       frozen: set<int>)
    requires MinutesRefreshed(shape, events, a, b, rs, frozen) && MinutesRefreshed(shape, events, b, c, [r], frozen)
    ensures MinutesRefreshed(shape, events, a, c, rs + [r], frozen)
  {
    DueAppend(rs, r, frozen);
  }

  lemma HoursCompose(shape: Shape, events: set<Event>, a: Table, b: Table, c: Table, rs: seq<Range>, r: Range,
                     frozen: set<int>)
    requires HoursRefreshed(shape, events, a, b, rs, frozen) && HoursRefreshed(shape, events, b, c, [r], frozen)
    ensures HoursRefreshed(shape, events, a, c, rs + [r], frozen)
  {
    DueAppend(rs, r, frozen);
  }

  lemma SingleDue(r: Range, frozen: set<int>)
    ensures forall m :: Due([r], frozen, m) <==> In(r, m) && DayOfMinute(m) !in frozen
  {
    forall m ensures InAny([r], m) <==> In(r, m) { assert In(r, m) ==> In([r][0], m); }
  }

  lemma NothingDue(frozen: set<int>)
    ensures (forall m :: !Due([], frozen, m)) && forall h :: !HourDue([], frozen, h)
  {
  }

  lemma SegmentCoverage(coverage: set<int>, r: Range)
    requires r.start < r.end
    ensures CoverageGrown(coverage, coverage + Minutes(r.start, r.end), [r], {})
  {
    MinutesAre(r.start, r.end);
    SingleDue(r, {});
  }

  lemma CoverageCompose(a: set<int>, b: set<int>, c: set<int>, rs: seq<Range>, r: Range, frozen: set<int>)
    requires CoverageGrown(a, b, rs, frozen) && CoverageGrown(b, c, [r], frozen)
    ensures CoverageGrown(a, c, rs + [r], frozen)
  {
    DueAppend(rs, r, frozen);
  }

  // One window of a bucket refresh.

  function OpenCells(keys: set<Cell>, frozen: set<int>): set<Cell> {
    set k | k in keys && DayOfMinute(k.bucket) !in frozen
  }

  /** Exactly these cells are what they should be now; the others are as they were. */
  ghost predicate CellsRefreshed(width: int, shape: Shape, events: set<Event>, before: Table, after: Table,
                                 cells: set<Cell>)
    requires width > 0
  {
    forall c :: At(after, c) == if c in cells then Want(width, shape, events, c) else At(before, c)
  }

  function HourCell(k: Cell): Cell { Cell(k.endpoint, k.bucket / HOUR) }

  function HourCells(cells: set<Cell>): set<Cell> { set k | k in cells :: HourCell(k) }

  function Hours(cells: set<Cell>): set<int> { set k | k in cells :: k.bucket / HOUR }

  function OfHour(cells: set<Cell>, h: int): set<Cell> { set k | k in cells && k.bucket / HOUR == h }

  function Endpoints(cells: set<Cell>): set<int> { set k | k in cells :: k.endpoint }

  /** `min(buckets)` and `max(buckets) + MINUTE`. */
  method MinuteBounds(cells: set<Cell>) returns (lo: int, hi: int)
    requires cells != {}
    ensures forall k :: k in cells ==> lo <= k.bucket < hi
    ensures exists k :: k in cells && k.bucket == lo
    ensures exists k :: k in cells && k.bucket == hi - 1
  {
    var first :| first in cells;
    lo, hi := first.bucket, first.bucket + 1;
    var rest := cells - {first};
    while rest != {}
      invariant rest <= cells && forall k :: k in cells - rest ==> lo <= k.bucket < hi
      invariant exists k :: k in cells && k.bucket == lo
      invariant exists k :: k in cells && k.bucket == hi - 1
      decreases |rest|
    {
      var k :| k in rest;
      rest := rest - {k};
      if k.bucket < lo { lo := k.bucket; }
      if k.bucket >= hi { hi := k.bucket + 1; }
    }
  }

  lemma WindowMinutes(shape: Shape, events: set<Event>, cells: set<Cell>, h: int, lo: int, hi: int, c: Cell)
    requires forall k :: k in cells ==> lo <= k.bucket < hi
    requires h * HOUR <= lo < hi <= h * HOUR + HOUR
    ensures var rows := Query(1, shape, events, lo, hi, Some(Endpoints(cells)));
      (c in cells ==> At(rows, c) == Want(1, shape, events, c)) && (c.bucket / HOUR != h ==> At(rows, c) == map[])
  {
    QueryAt(1, shape, events, lo, hi, Some(Endpoints(cells)), c);
  }

  lemma WindowHours(shape: Shape, events: set<Event>, cells: set<Cell>, h: int, lo: int, hi: int, c: Cell)
    requires h * HOUR <= lo < hi <= h * HOUR + HOUR
    ensures var rows := Query(HOUR, shape, events, ExpandDown(HOUR, lo), ExpandUp(HOUR, hi), Some(Endpoints(cells)));
      (c.bucket == h && c.endpoint in Endpoints(cells) ==> At(rows, c) == Want(HOUR, shape, events, c))
      && (c.bucket != h ==> At(rows, c) == map[])
  {
    assert ExpandDown(HOUR, lo) == h * HOUR && ExpandUp(HOUR, hi) == h * HOUR + HOUR;
    QueryAt(HOUR, shape, events, h * HOUR, h * HOUR + HOUR, Some(Endpoints(cells)), c);
  }

  /** The hour of a bucket of the minute table or of the hour table. */
  function BucketHour(width: int, bucket: int): int { if width == 1 then bucket / HOUR else bucket }

  /** The rows collected for the windows done so far: complete for the cells asked in those
      windows, and nothing from any other window. */
  ghost predicate Collected(width: int, shape: Shape, events: set<Event>, rows: Table, asked: set<Cell>, done: set<int>)
    requires width == 1 || width == HOUR
  {
    && (forall c :: c in asked && BucketHour(width, c.bucket) in done ==> At(rows, c) == Want(width, shape, events, c))
    && (forall c: Cell :: BucketHour(width, c.bucket) !in done ==> At(rows, c) == map[])
  }

  lemma CollectMore(width: int, shape: Shape, events: set<Event>, rows: Table, more: Table, asked: set<Cell>,
                    done: set<int>, h: int)
    requires (width == 1 || width == HOUR) && h !in done && Collected(width, shape, events, rows, asked, done)
    requires forall c :: c in asked && BucketHour(width, c.bucket) == h ==> At(more, c) == Want(width, shape, events, c)
    requires forall c: Cell :: BucketHour(width, c.bucket) != h ==> At(more, c) == map[]
    ensures Collected(width, shape, events, Upsert(rows, more), asked, done + {h})
  {
  }

  lemma AllCollected(shapes: Shapes, events: set<Event>, open: set<Cell>, minutes: Table, hours: Table)
    requires Collected(1, shapes.minute, events, minutes, open, Hours(open))
    requires Collected(HOUR, shapes.hour, events, hours, HourCells(open), Hours(open))
    ensures forall c :: c in open ==> At(minutes, c) == Want(1, shapes.minute, events, c)
    ensures forall c :: c in HourCells(open) ==> At(hours, c) == Want(HOUR, shapes.hour, events, c)
  {
  }

  class DashboardRollups {
    var activity: Table
    var dimensions: Table
    /** The minutes recorded in `dashboard_rollup_coverage`. */
    var coverage: set<int>

    constructor ()
      ensures activity == map[] && dimensions == map[] && coverage == {}
    {
      activity, dimensions, coverage := map[], map[], {};
    }

    /** Queries for every window the rows of its keys, and collects them. */
    method QueryWindows(shapes: Shapes, events: set<Event>, open: set<Cell>) returns (minutes: Table, hours: Table)
      ensures forall c :: c in open ==> At(minutes, c) == Want(1, shapes.minute, events, c)
      ensures forall c :: c in HourCells(open) ==> At(hours, c) == Want(HOUR, shapes.hour, events, c)
    {
      minutes, hours := map[], map[];
      var windows := Hours(open);
      ghost var done: set<int> := {};
      while windows != {}
        invariant windows !! done && windows + done == Hours(open)
        invariant Collected(1, shapes.minute, events, minutes, open, done)
        invariant Collected(HOUR, shapes.hour, events, hours, HourCells(open), done)
        decreases |windows|
      {
        var h :| h in windows;
        minutes, hours := QueryWindow(shapes, events, open, h, minutes, hours, done);
        windows, done := windows - {h}, done + {h};
      }
      AllCollected(shapes, events, open, minutes, hours);
    }

    method QueryWindow(shapes: Shapes, events: set<Event>, open: set<Cell>, h: int, minutes: Table, hours: Table,
                       ghost done: set<int>)
      returns (minutes': Table, hours': Table)
      requires h in Hours(open) && h !in done
      requires Collected(1, shapes.minute, events, minutes, open, done)
      requires Collected(HOUR, shapes.hour, events, hours, HourCells(open), done)
      ensures Collected(1, shapes.minute, events, minutes', open, done + {h})
      ensures Collected(HOUR, shapes.hour, events, hours', HourCells(open), done + {h})
    {
      var cells := OfHour(open, h);
      var k :| k in open && k.bucket / HOUR == h;
      assert k in cells;
      var lo, hi := MinuteBounds(cells);
      assert h * HOUR <= lo < hi <= h * HOUR + HOUR;
      var endpoints := Some(Endpoints(cells));
      var more := Query(1, shapes.minute, events, lo, hi, endpoints);
      var moreHours := Query(HOUR, shapes.hour, events, ExpandDown(HOUR, lo), ExpandUp(HOUR, hi), endpoints);
      forall c ensures (c in open && BucketHour(1, c.bucket) == h ==> At(more, c) == Want(1, shapes.minute, events, c))
        && (BucketHour(1, c.bucket) != h ==> At(more, c) == map[])
      {
        WindowMinutes(shapes.minute, events, cells, h, lo, hi, c);
      }
      forall c ensures (c in HourCells(open) && BucketHour(HOUR, c.bucket) == h ==>
        At(moreHours, c) == Want(HOUR, shapes.hour, events, c))
        && (BucketHour(HOUR, c.bucket) != h ==> At(moreHours, c) == map[])
      {
        WindowHours(shapes.hour, events, cells, h, lo, hi, c);
        AskedHour(open, h, c);
      }
      CollectMore(1, shapes.minute, events, minutes, more, open, done, h);
      CollectMore(HOUR, shapes.hour, events, hours, moreHours, HourCells(open), done, h);
      minutes', hours' := Upsert(minutes, more), Upsert(hours, moreHours);
    }

    /** `refresh_buckets`: exactly the keys on days that are not frozen, and their hours, are
        brought up to date. */
    method RefreshBuckets(shapes: Shapes, events: set<Event>, keys: set<Cell>, frozen: set<int>) returns (skipped: nat)
      modifies this
      ensures CellsRefreshed(1, shapes.minute, events, old(activity), activity, OpenCells(keys, frozen))
      ensures CellsRefreshed(HOUR, shapes.hour, events, old(dimensions), dimensions, HourCells(OpenCells(keys, frozen)))
      ensures coverage == old(coverage) && skipped == |keys| - |OpenCells(keys, frozen)|
    {
      var open := OpenCells(keys, frozen);
      assert open <= keys && |keys - open| == |keys| - |open|;
      skipped := |keys| - |open|;
      var minutes, hours := QueryWindows(shapes, events, open);
      forall c
        ensures At(ReplaceCells(activity, open, minutes), c) == if c in open then At(minutes, c) else At(activity, c)
      {
        ReplaceCellsAt(activity, open, minutes, c);
      }
      var hourCells := HourCells(open);
      forall c
        ensures At(ReplaceCells(dimensions, hourCells, hours), c) ==
          if c in hourCells then At(hours, c) else At(dimensions, c)
      {
        ReplaceCellsAt(dimensions, hourCells, hours, c);
      }
      activity := ReplaceCells(activity, open, minutes);
      dimensions := ReplaceCells(dimensions, hourCells, hours);
    }

    /** One `replace_range` with freshly queried rows. */
    method ReplaceSegment(shapes: Shapes, events: set<Event>, segment: Range)
      requires segment.start < segment.end
      modifies this
      ensures MinutesRefreshed(shapes.minute, events, old(activity), activity, [segment], {})
      ensures HoursRefreshed(shapes.hour, events, old(dimensions), dimensions, [segment], {})
      ensures CoverageGrown(old(coverage), coverage, [segment], {})
    {
      var lo, hi := segment.start, segment.end;
      var l, u := ExpandDown(HOUR, lo), ExpandUp(HOUR, hi);
      SegmentMinutes(shapes.minute, events, activity, lo, hi);
      SegmentHours(shapes.hour, events, dimensions, lo, hi);
      SegmentCoverage(coverage, segment);
      activity := ReplaceRange(1, activity, lo, hi, Query(1, shapes.minute, events, lo, hi, None));
      dimensions := ReplaceRange(HOUR, dimensions, l, u, Query(HOUR, shapes.hour, events, l, u, None));
      coverage := coverage + Minutes(lo, hi);
    }

    method ReplaceSegments(shapes: Shapes, events: set<Event>, segments: seq<Range>)
      requires Tidy(segments)
      modifies this
      ensures MinutesRefreshed(shapes.minute, events, old(activity), activity, segments, {})
      ensures HoursRefreshed(shapes.hour, events, old(dimensions), dimensions, segments, {})
      ensures CoverageGrown(old(coverage), coverage, segments, {})
    {
      NothingDue({});
      for i := 0 to |segments|
        invariant MinutesRefreshed(shapes.minute, events, old(activity), activity, segments[..i], {})
        invariant HoursRefreshed(shapes.hour, events, old(dimensions), dimensions, segments[..i], {})
        invariant CoverageGrown(old(coverage), coverage, segments[..i], {})
      {
        ghost var a, d, v := activity, dimensions, coverage;
        ReplaceSegment(shapes, events, segments[i]);
        assert segments[..i + 1] == segments[..i] + [segments[i]];
        MinutesCompose(shapes.minute, events, old(activity), a, activity, segments[..i], segments[i], {});
        HoursCompose(shapes.hour, events, old(dimensions), d, dimensions, segments[..i], segments[i], {});
        CoverageCompose(old(coverage), v, coverage, segments[..i], segments[i], {});
      }
      assert segments[..|segments|] == segments;
    }

    /** `refresh_range`: exactly the minutes of the range on days that are not frozen, and
        their hours, are brought up to date and recorded as covered. An empty range is refused. */
    method RefreshRange(shapes: Shapes, events: set<Event>, range: Range, frozen: set<int>) returns (done: bool)
      modifies this
      ensures done <==> range.start < range.end
      ensures !done ==> unchanged(this)
      ensures done ==> MinutesRefreshed(shapes.minute, events, old(activity), activity, [range], frozen)
      ensures done ==> HoursRefreshed(shapes.hour, events, old(dimensions), dimensions, [range], frozen)
      ensures done ==> CoverageGrown(old(coverage), coverage, [range], frozen)
    {
      if range.start >= range.end { return false; }
      var segments := RefreshableSegments(range, frozen);
      ReplaceSegments(shapes, events, segments);
      SingleDue(range, frozen);
      SameDue(segments, [range], {}, frozen);
      return true;
    }
  }

  lemma AskedHour(open: set<Cell>, h: int, c: Cell)
    ensures c in HourCells(open) && c.bucket == h ==> c.endpoint in Endpoints(OfHour(open, h))
  {
  }
}
