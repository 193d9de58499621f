/** The two dashboard rollup tables, one by minute and one by hour, and the windowed queries
    they are recomputed from. */
module RollupTables {
  import opened Basics
  import opened Telemetry

  /** One bucket of one endpoint; `bucket` counts minutes or hours from the epoch. */
  datatype Cell = Cell(endpoint: int, bucket: int)

  /** The rows of a rollup table, by bucket: label and count. A bucket without rows is absent
      or empty. */
  type Table = map<Cell, map<string, nat>>

  function At(t: Table, c: Cell): map<string, nat> { if c in t then t[c] else map[] }

  /** How the events of one bucket become rows: by event type for the minute table, the most
      frequent values of each dimension for the hour table. Events are counted by their
      identifier, so this is a function of the set of events. */
  type Shape = s: set<Event> -> map<string, nat> | s({}) == map[] witness (_ => map[])

  function CellOf(width: int, e: Event): Cell
    requires width > 0
  {
    Cell(e.endpoint, MinuteOf(e) / width)
  }

  function Group(width: int, events: set<Event>, c: Cell): set<Event>
    requires width > 0
  {
    set e | e in events && CellOf(width, e) == c
  }

  /** What the rollup of a bucket should be. */
  function Want(width: int, shape: Shape, events: set<Event>, c: Cell): map<string, nat>
    requires width > 0
  {
    shape(Group(width, events, c))
  }

  predicate Asked(endpoints: Option<set<int>>, endpoint: int) { endpoints.None? || endpoint in endpoints.value }

  /** The aggregation query over the minutes from `lo` to `hi`. */
  function Query(width: int, shape: Shape, events: set<Event>, lo: int, hi: int, endpoints: Option<set<int>>): Table
    requires width > 0
  {
    var filtered := Filtered(events, lo, hi, endpoints);
    map c | c in Cells(width, filtered) :: Want(width, shape, filtered, c)
  }

  function Filtered(events: set<Event>, lo: int, hi: int, endpoints: Option<set<int>>): set<Event> {
    set e | e in events && lo <= MinuteOf(e) < hi && Asked(endpoints, e.endpoint)
  }

  function Cells(width: int, events: set<Event>): set<Cell>
    requires width > 0
  {
    set e | e in events :: CellOf(width, e)
  }

  /** `_expanded_bucket_bounds`. */
  function ExpandDown(width: int, lo: int): int
    requires width > 0
  {
    lo - lo % width
  }

  function ExpandUp(width: int, hi: int): int
    requires width > 0
  {
    if hi % width == 0 then hi else hi + width - hi % width
  }

  /** The bucket lies in the minutes from `lo` to `hi`. */
  predicate Inside(width: int, bucket: int, lo: int, hi: int) { lo <= bucket * width < hi }

  lemma AlignedBucket(width: int, m: int, at: int)
    requires width > 0 && at % width == 0
    ensures at <= m / width * width <==> at <= m
  {
    var b, q := m / width, at / width;
    assert m == b * width + m % width && at == q * width;
    if q <= b {
      Scale(width, q, b);
    } else {
      Scale(width, b + 1, q);
      assert (b + 1) * width == b * width + width;
    }
  }

  lemma AlignedBuckets(width: int, m: int, lo: int, hi: int)
    requires width > 0 && lo % width == 0 && hi % width == 0
    ensures Inside(width, m / width, lo, hi) <==> lo <= m < hi
  {
    AlignedBucket(width, m, lo);
    AlignedBucket(width, m, hi);
  }

  /** Over aligned minutes the query yields, for each asked bucket, what it should be. */
  lemma QueryAt(width: int, shape: Shape, events: set<Event>, lo: int, hi: int, endpoints: Option<set<int>>, c: Cell)
    requires width > 0 && lo % width == 0 && hi % width == 0
    ensures At(Query(width, shape, events, lo, hi, endpoints), c) ==
      if Inside(width, c.bucket, lo, hi) && Asked(endpoints, c.endpoint) then Want(width, shape, events, c) else map[]
  {
    var filtered := Filtered(events, lo, hi, endpoints);
    forall e | CellOf(width, e) == c
      ensures lo <= MinuteOf(e) < hi && Asked(endpoints, e.endpoint) <==>
        Inside(width, c.bucket, lo, hi) && Asked(endpoints, c.endpoint)
    {
      AlignedBuckets(width, MinuteOf(e), lo, hi);
    }
    if Inside(width, c.bucket, lo, hi) && Asked(endpoints, c.endpoint) {
      assert Group(width, filtered, c) == Group(width, events, c);
    } else {
      assert Group(width, filtered, c) == {};
    }
    if c !in Cells(width, filtered) { assert Group(width, filtered, c) == {}; }
  }

  // Changing a table.

  /** Rows added to rows; on a conflict the added row wins. */
  function Upsert(t: Table, rows: Table): Table {
    map c | c in t.Keys + rows.Keys :: At(t, c) + At(rows, c)
  }

  lemma UpsertAt(t: Table, rows: Table, c: Cell)
    ensures At(Upsert(t, rows), c) == At(t, c) + At(rows, c)
  {
  }

  function DeleteCells(t: Table, cells: set<Cell>): Table {
    map c | c in t && c !in cells :: t[c]
  }

  function OnlyCells(t: Table, cells: set<Cell>): Table {
    map c | c in t && c in cells :: t[c]
  }

  /** `replace_buckets` on one table. */
  function ReplaceCells(t: Table, cells: set<Cell>, rows: Table): Table {
    Upsert(DeleteCells(t, cells), OnlyCells(rows, cells))
  }

  lemma ReplaceCellsAt(t: Table, cells: set<Cell>, rows: Table, c: Cell)
    ensures At(ReplaceCells(t, cells, rows), c) == if c in cells then At(rows, c) else At(t, c)
  {
  }

  function DeleteRange(width: int, t: Table, lo: int, hi: int): Table
  {
    map c | c in t && !Inside(width, c.bucket, lo, hi) :: t[c]
  }

  /** `replace_range` on one table. */
  function ReplaceRange(width: int, t: Table, lo: int, hi: int, rows: Table): Table {
    Upsert(DeleteRange(width, t, lo, hi), rows)
  }

  lemma ReplaceRangeAt(width: int, shape: Shape, events: set<Event>, t: Table, lo: int, hi: int, c: Cell)
    requires width > 0 && lo % width == 0 && hi % width == 0
    ensures At(ReplaceRange(width, t, lo, hi, Query(width, shape, events, lo, hi, None)), c) ==
      if Inside(width, c.bucket, lo, hi) then Want(width, shape, events, c) else At(t, c)
  {
    var rows := Query(width, shape, events, lo, hi, None);
    UpsertAt(DeleteRange(width, t, lo, hi), rows, c);
    QueryAt(width, shape, events, lo, hi, None, c);
    assert map[] + At(rows, c) == At(rows, c) && At(t, c) + map[] == At(t, c);
  }
}
