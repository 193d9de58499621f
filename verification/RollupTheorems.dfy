/** What the refresh operations achieve: a rollup that differs from the event
    table only in its dirty buckets is exact again after they are refreshed, and the buckets of
    frozen days never change. */
module RollupTheorems {
  import opened Telemetry
  import opened RollupRanges
  import opened RollupTables
  import opened RollupSync

  // Frozen days.

  /** Refreshing buckets leaves every row of a frozen day alone, in both tables. */
  lemma FrozenBucketsStay(shapes: Shapes, events: set<Event>, a: Table, a': Table, d: Table, d': Table, keys: set<Cell>,
                          frozen: set<int>, c: Cell)
    requires CellsRefreshed(1, shapes.minute, events, a, a', OpenCells(keys, frozen))
    requires CellsRefreshed(HOUR, shapes.hour, events, d, d', HourCells(OpenCells(keys, frozen)))
    ensures DayOfMinute(c.bucket) in frozen ==> At(a', c) == At(a, c)
    ensures DayOfHour(c.bucket) in frozen ==> At(d', c) == At(d, c)
  {
  }

  /** Refreshing a range leaves every row of a frozen day alone, although the hour table is
      refreshed beyond the range. */
  lemma FrozenRangesStay(shapes: Shapes, events: set<Event>, a: Table, a': Table, d: Table, d': Table, rs: seq<Range>,
                         frozen: set<int>, c: Cell)
    requires MinutesRefreshed(shapes.minute, events, a, a', rs, frozen)
    requires HoursRefreshed(shapes.hour, events, d, d', rs, frozen)
    ensures DayOfMinute(c.bucket) in frozen ==> At(a', c) == At(a, c)
    ensures DayOfHour(c.bucket) in frozen ==> At(d', c) == At(d, c)
  {
  }

  // Dirty buckets.

  /** Outside the frozen days both tables are what the events say. */
  ghost predicate Exact(shapes: Shapes, events: set<Event>, activity: Table, dimensions: Table, frozen: set<int>) {
    && (forall c: Cell :: DayOfMinute(c.bucket) !in frozen ==> At(activity, c) == Want(1, shapes.minute, events, c))
    && (forall c: Cell :: DayOfHour(c.bucket) !in frozen ==> At(dimensions, c) == Want(HOUR, shapes.hour, events, c))
  }

  /** Every event that came or went has its minute among the dirty keys. */
  ghost predicate DirtyCovers(keys: set<Cell>, before: set<Event>, after: set<Event>) {
    forall e :: (e in before) != (e in after) ==> CellOf(1, e) in keys
  }

  lemma CleanMinute(keys: set<Cell>, before: set<Event>, after: set<Event>, c: Cell)
    requires DirtyCovers(keys, before, after) && c !in keys
    ensures Group(1, after, c) == Group(1, before, c)
  {
  }

  lemma CleanKey(keys: set<Cell>, frozen: set<int>, e: Event, c: Cell)
    requires CellOf(HOUR, e) == c && DayOfHour(c.bucket) !in frozen && c !in HourCells(OpenCells(keys, frozen))
    ensures CellOf(1, e) !in keys
  {
    var k := CellOf(1, e);
    DayOfMinuteOfHour(k.bucket);
    assert k in OpenCells(keys, frozen) <==> k in keys;
    assert k in OpenCells(keys, frozen) ==> HourCell(k) in HourCells(OpenCells(keys, frozen));
    assert HourCell(k) == c;
  }

  lemma CleanHour(keys: set<Cell>, frozen: set<int>, before: set<Event>, after: set<Event>, c: Cell)
    requires DirtyCovers(keys, before, after) && DayOfHour(c.bucket) !in frozen &&
      c !in HourCells(OpenCells(keys, frozen))
    ensures Group(HOUR, after, c) == Group(HOUR, before, c)
  {
    forall e | CellOf(HOUR, e) == c ensures e in before <==> e in after { CleanKey(keys, frozen, e, c); }
  }

  /** A rollup that was exact is exact again, for the changed events, once the buckets of the
      changed events have been refreshed. */
  lemma DirtyBucketsSuffice(shapes: Shapes, before: set<Event>, after: set<Event>, a: Table, a': Table,
                            d: Table, d': Table,
                            keys: set<Cell>, frozen: set<int>)
    requires Exact(shapes, before, a, d, frozen) && DirtyCovers(keys, before, after)
    requires CellsRefreshed(1, shapes.minute, after, a, a', OpenCells(keys, frozen))
    requires CellsRefreshed(HOUR, shapes.hour, after, d, d', HourCells(OpenCells(keys, frozen)))
    ensures Exact(shapes, after, a', d', frozen)
  {
    forall c: Cell | DayOfMinute(c.bucket) !in frozen ensures At(a', c) == Want(1, shapes.minute, after, c) {
      if c !in keys { CleanMinute(keys, before, after, c); }
    }
    forall c: Cell | DayOfHour(c.bucket) !in frozen ensures At(d', c) == Want(HOUR, shapes.hour, after, c) {
      if c !in HourCells(OpenCells(keys, frozen)) { CleanHour(keys, frozen, before, after, c); }
    }
  }

  // The rollup tables follow the events the storage protocol calls reflected.

  /** The reflected events after the cells have been recomputed from the event table. */
  function Recomputed(width: int, reflected: set<Event>, events: set<Event>, cells: set<Cell>): set<Event>
    requires width > 0
  {
    (set e | e in reflected && CellOf(width, e) !in cells) + (set e | e in events && CellOf(width, e) in cells)
  }

  /** A table that is the aggregate of some events stays the aggregate of the reflected events,
      whatever cells are refreshed from whatever state of the event table. */
  lemma TableFollowsReflected(width: int, shape: Shape, reflected: set<Event>, events: set<Event>, t: Table,
                              t': Table, cells: set<Cell>)
    requires width > 0 && CellsRefreshed(width, shape, events, t, t', cells)
    requires forall c :: At(t, c) == Want(width, shape, reflected, c)
    ensures forall c :: At(t', c) == Want(width, shape, Recomputed(width, reflected, events, cells), c)
  {
    forall c ensures At(t', c) == Want(width, shape, Recomputed(width, reflected, events, cells), c) {
      assert Group(width, Recomputed(width, reflected, events, cells), c) ==
        if c in cells then Group(width, events, c) else Group(width, reflected, c);
    }
  }
}
