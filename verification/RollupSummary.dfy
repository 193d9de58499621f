/** The dashboard summary: reading it from the minute rollup gives the same numbers as counting
    the events themselves over the covered minutes. */
module RollupSummary {
  import opened Basics
  import opened Telemetry
  import opened RollupRanges
  import opened RollupTables

  const SECONDS_PER_MINUTE := 60
  const INTERVALS: set<int> := {60, 300, 3600, 86400}

  // Sums over sets.

  ghost function Sum<T(!new)>(s: set<T>, f: T -> nat): nat {
    if s == {} then 0 else var x :| x in s; f(x) + Sum(s - {x}, f)
  }

  lemma {:induction false} SumRemove<T(!new)>(s: set<T>, f: T -> nat, x: T)
    requires x in s
    ensures Sum(s, f) == f(x) + Sum(s - {x}, f)
    decreases |s|
  {
    var y :| y in s && Sum(s, f) == f(y) + Sum(s - {y}, f);
    if y != x {
      SumRemove(s - {y}, f, x);
      SumRemove(s - {x}, f, y);
      assert s - {y} - {x} == s - {x} - {y};
    }
  }

  lemma {:induction false} SumSame<T(!new)>(s: set<T>, f: T -> nat, g: T -> nat)
    requires forall x :: x in s ==> f(x) == g(x)
    ensures Sum(s, f) == Sum(s, g)
    decreases |s|
  {
    if s != {} {
      var x :| x in s;
      SumRemove(s, f, x);
      SumRemove(s, g, x);
      SumSame(s - {x}, f, g);
    }
  }

  ghost function Fiber<K(!new)>(events: set<Event>, key: Event -> K, k: K): set<Event> {
    set e | e in events && key(e) == k
  }

  /** The number of events of each key. */
  ghost function Sizes<K(!new)>(events: set<Event>, key: Event -> K): K -> nat { k => |Fiber(events, key, k)| }

  ghost function NotOf<K(!new)>(events: set<Event>, key: Event -> K, k: K): set<Event> {
    set e | e in events && key(e) != k
  }

  lemma SplitOff<K(!new)>(events: set<Event>, key: Event -> K, k: K)
    ensures |events| == |Fiber(events, key, k)| + |NotOf(events, key, k)|
    ensures forall j :: j != k ==> Fiber(NotOf(events, key, k), key, j) == Fiber(events, key, j)
  {
    assert events == Fiber(events, key, k) + NotOf(events, key, k);
    forall j | j != k ensures Fiber(NotOf(events, key, k), key, j) == Fiber(events, key, j) { }
  }

  /** Counting by groups counts everything once. */
  lemma {:induction false} SumOfFibers<K(!new)>(events: set<Event>, key: Event -> K, keys: set<K>)
    requires forall e :: e in events ==> key(e) in keys
    ensures Sum(keys, Sizes(events, key)) == |events|
    decreases |keys|
  {
    if keys == {} {
      assert events == {};
    } else {
      var k :| k in keys;
      var rest := NotOf(events, key, k);
      SplitOff(events, key, k);
      SumRemove(keys, Sizes(events, key), k);
      SumOfFibers(rest, key, keys - {k});
      SumSame(keys - {k}, Sizes(events, key), Sizes(rest, key));
    }
  }

  // Rows and events.

  /** A row of the minute table. */
  datatype Row = Row(cell: Cell, kind: string)

  function Kinds(events: set<Event>): set<string> { set e | e in events :: e.kind }

  /** Rows by event type: the number of events of the type in the bucket. */
  function ByType(events: set<Event>): map<string, nat> {
    map t | t in Kinds(events) :: |set e | e in events && e.kind == t|
  }

  function RowOf(e: Event): Row { Row(CellOf(1, e), e.kind) }

  function Rows(t: Table): set<Row> {
    set c, l | c in t && l in t[c] :: Row(c, l)
  }

  function CountOf(t: Table, r: Row): nat { if r.kind in At(t, r.cell) then At(t, r.cell)[r.kind] else 0 }

  // What a summary is about.

  /** A time range in milliseconds and an optional endpoint. */
  datatype Request = Request(from: int, to: int, endpoint: Option<int>)

  predicate OfEndpoint(q: Request, endpoint: int) { q.endpoint.None? || endpoint == q.endpoint.value }

  // From the rollup: sums over rows.

  /** The minutes the rollup query selects: from the truncated start up to the end. */
  predicate Selected(q: Request, m: int) { m >= FloorMinute(q.from) && m * MILLIS_PER_MINUTE < q.to }

  predicate InSlice(q: Request, c: Cell) { Selected(q, c.bucket) && OfEndpoint(q, c.endpoint) }

  /** `date_bin`: the start, in seconds, of the interval a minute falls into. */
  function BinOf(interval: int, minute: int): int
    requires interval > 0
  {
    (minute * SECONDS_PER_MINUTE / interval) * interval
  }

  ghost function SlicedRows(t: Table, q: Request): set<Row> { set r | r in Rows(t) && InSlice(q, r.cell) }

  ghost function RowsOfType(t: Table, q: Request, kind: string): set<Row> {
    set r | r in SlicedRows(t, q) && r.kind == kind
  }

  ghost function RowsInInterval(t: Table, q: Request, interval: int, start: int): set<Row>
    requires interval > 0
  {
    set r | r in SlicedRows(t, q) && BinOf(interval, r.cell.bucket) == start
  }

  ghost function SumRows(t: Table, rows: set<Row>): nat { Sum(rows, r => CountOf(t, r)) }

  // Live: counting events by their time.

  function LiveEvents(events: set<Event>, q: Request): set<Event> {
    set e | e in events && q.from <= e.at < q.to && OfEndpoint(q, e.endpoint)
  }

  /** `toStartOfInterval`: the start, in seconds, of the interval the event's time falls into. */
  function StartOf(interval: int): Event -> int
    requires interval > 0
  {
    (e: Event) => (e.at / 1000 / interval) * interval
  }

  function EventsOfType(events: set<Event>, q: Request, kind: string): set<Event> {
    set e | e in LiveEvents(events, q) && e.kind == kind
  }

  function EventsInInterval(events: set<Event>, q: Request, interval: int, start: int): set<Event>
    requires interval > 0
  {
    set e | e in LiveEvents(events, q) && StartOf(interval)(e) == start
  }

  // The two agree over the coverage bounds.

  /** The request widened to whole minutes. */
  function Widened(q: Request): Request {
    var bounds := CoverageBounds(q.from, q.to);
    Request(bounds.start * MILLIS_PER_MINUTE, bounds.end * MILLIS_PER_MINUTE, q.endpoint)
  }

  lemma SelectedAreTheCoverageBounds(q: Request, m: int)
    ensures Selected(q, m) <==> In(CoverageBounds(q.from, q.to), m)
  {
  }

  lemma QuotientIs(x: int, d: int, q: int)
    requires d > 0 && q * d <= x < q * d + d
    ensures x / d == q
  {
    var p := x / d;
    assert x == p * d + x % d;
    assert (p + 1) * d == p * d + d && (q + 1) * d == q * d + d;
    if p < q {
      Scale(d, p + 1, q);
    } else if p > q {
      Scale(d, q + 1, p);
    }
  }

  /** Seconds of one minute fall into one bin of whole minutes. */
  lemma SameBin(minute: int, seconds: int, n: int)
    requires n >= 1
    requires minute * SECONDS_PER_MINUTE <= seconds < minute * SECONDS_PER_MINUTE + SECONDS_PER_MINUTE
    ensures minute * SECONDS_PER_MINUTE / (SECONDS_PER_MINUTE * n) == seconds / (SECONDS_PER_MINUTE * n)
  {
    var q, d := minute / n, SECONDS_PER_MINUTE * n;
    assert minute == q * n + minute % n;
    assert q * d == SECONDS_PER_MINUTE * (q * n);
    QuotientIs(minute * SECONDS_PER_MINUTE, d, q);
    QuotientIs(seconds, d, q);
  }

  /** Binning the minute and binning the time agree for every supported interval. */
  lemma SameInterval(interval: int, e: Event)
    requires interval in INTERVALS
    ensures BinOf(interval, MinuteOf(e)) == StartOf(interval)(e)
  {
    SameBin(MinuteOf(e), e.at / 1000, interval / SECONDS_PER_MINUTE);
  }

  /** An event lies in the widened range exactly when its minute is selected. */
  lemma SelectedEvents(events: set<Event>, q: Request, e: Event)
    ensures e in LiveEvents(events, Widened(q)) <==> e in events && InSlice(q, CellOf(1, e))
  {
    SelectedAreTheCoverageBounds(q, MinuteOf(e));
  }

  /** In the slice the table is what the events say. */
  ghost predicate Agrees(t: Table, events: set<Event>, q: Request) {
    forall c :: InSlice(q, c) ==> At(t, c) == Want(1, ByType, events, c)
  }

  lemma RowIn(t: Table, r: Row)
    ensures r in Rows(t) <==> r.kind in At(t, r.cell)
  {
  }

  lemma FiberIsGroup(events: set<Event>, q: Request, r: Row)
    requires InSlice(q, r.cell)
    ensures Fiber(LiveEvents(events, Widened(q)), RowOf, r) == set e | e in Group(1, events, r.cell) && e.kind == r.kind
  {
    var fiber := Fiber(LiveEvents(events, Widened(q)), RowOf, r);
    forall e ensures e in fiber <==> e in Group(1, events, r.cell) && e.kind == r.kind { SelectedEvents(events, q, e); }
  }

  lemma CountIsFiber(t: Table, events: set<Event>, q: Request, r: Row)
    requires Agrees(t, events, q) && InSlice(q, r.cell)
    ensures CountOf(t, r) == |Fiber(LiveEvents(events, Widened(q)), RowOf, r)|
    ensures r in Rows(t) <==> Fiber(LiveEvents(events, Widened(q)), RowOf, r) != {}
  {
    var group, fiber := Group(1, events, r.cell), Fiber(LiveEvents(events, Widened(q)), RowOf, r);
    FiberIsGroup(events, q, r);
    assert At(t, r.cell) == ByType(group);
    RowIn(t, r);
    assert r.kind in Kinds(group) <==> fiber != {} by {
      if r.kind in Kinds(group) {
        var e :| e in group && e.kind == r.kind;
        assert e in fiber;
      }
    }
  }

  /** Summing any choice of rows of the slice counts the events of those rows. */
  lemma SumCountsEvents(t: Table, events: set<Event>, q: Request, rows: set<Row>, chosen: set<Event>)
    requires Agrees(t, events, q) && rows <= SlicedRows(t, q)
    requires forall e :: e in chosen <==> e in LiveEvents(events, Widened(q)) && RowOf(e) in rows
    ensures SumRows(t, rows) == |chosen|
  {
    forall r | r in rows ensures CountOf(t, r) == |Fiber(chosen, RowOf, r)| {
      CountIsFiber(t, events, q, r);
      assert Fiber(chosen, RowOf, r) == Fiber(LiveEvents(events, Widened(q)), RowOf, r);
    }
    SumSame(rows, r => CountOf(t, r), Sizes(chosen, RowOf));
    SumOfFibers(chosen, RowOf, rows);
  }

  lemma EventHasRow(t: Table, events: set<Event>, q: Request, e: Event)
    requires Agrees(t, events, q) && e in LiveEvents(events, Widened(q))
    ensures RowOf(e) in SlicedRows(t, q)
  {
    SelectedEvents(events, q, e);
    CountIsFiber(t, events, q, RowOf(e));
    assert e in Fiber(LiveEvents(events, Widened(q)), RowOf, RowOf(e));
  }

  lemma EventsHaveRows(t: Table, events: set<Event>, q: Request)
    requires Agrees(t, events, q)
    ensures forall e :: e in LiveEvents(events, Widened(q)) ==> RowOf(e) in SlicedRows(t, q)
  {
    forall e | e in LiveEvents(events, Widened(q)) ensures RowOf(e) in SlicedRows(t, q) {
      EventHasRow(t, events, q, e);
    }
  }

  /** The rollup answers every part of the summary as counting the events of the covered
      minutes does: the total, each type and each point of the time series. */
  lemma RollupEqualsLive(t: Table, events: set<Event>, q: Request, kind: string, interval: int, start: int)
    requires Agrees(t, events, q) && interval in INTERVALS
    ensures SumRows(t, SlicedRows(t, q)) == |LiveEvents(events, Widened(q))|
    ensures SumRows(t, RowsOfType(t, q, kind)) == |EventsOfType(events, Widened(q), kind)|
    ensures SumRows(t, RowsInInterval(t, q, interval, start)) == |EventsInInterval(events, Widened(q), interval, start)|
  {
    EventsHaveRows(t, events, q);
    SumCountsEvents(t, events, q, SlicedRows(t, q), LiveEvents(events, Widened(q)));
    SumCountsEvents(t, events, q, RowsOfType(t, q, kind), EventsOfType(events, Widened(q), kind));
    forall e: Event ensures BinOf(interval, MinuteOf(e)) == StartOf(interval)(e) { SameInterval(interval, e); }
    SumCountsEvents(t, events, q, RowsInInterval(t, q, interval, start),
                    EventsInInterval(events, Widened(q), interval, start));
  }

  function KindOf(e: Event): string { e.kind }

  /** The total is the sum over the types. */
  lemma TotalIsSumOfTypes(events: set<Event>, q: Request, kinds: set<string>)
    requires forall e :: e in LiveEvents(events, q) ==> e.kind in kinds
    ensures Sum(kinds, k => |EventsOfType(events, q, k)|) == |LiveEvents(events, q)|
  {
    var live := LiveEvents(events, q);
    forall k | k in kinds ensures |EventsOfType(events, q, k)| == |Fiber(live, KindOf, k)| {
      assert Fiber(live, KindOf, k) == EventsOfType(events, q, k);
    }
    SumSame(kinds, k => |EventsOfType(events, q, k)|, Sizes(live, KindOf));
    SumOfFibers(live, KindOf, kinds);
  }

  /** The total is the sum over the intervals of the time series. */
  lemma TotalIsSumOfSeries(events: set<Event>, q: Request, interval: int, starts: set<int>)
    requires interval > 0 && forall e :: e in LiveEvents(events, q) ==> StartOf(interval)(e) in starts
    ensures Sum(starts, b => |EventsInInterval(events, q, interval, b)|) == |LiveEvents(events, q)|
  {
    var live := LiveEvents(events, q);
    forall b | b in starts ensures |EventsInInterval(events, q, interval, b)| == |Fiber(live, StartOf(interval), b)| {
      assert Fiber(live, StartOf(interval), b) == EventsInInterval(events, q, interval, b);
    }
    SumSame(starts, b => |EventsInInterval(events, q, interval, b)|, Sizes(live, StartOf(interval)));
    SumOfFibers(live, StartOf(interval), starts);
  }

  // Which requests the rollup answers exactly.

  predicate Aligned(at: int) { at % MILLIS_PER_MINUTE == 0 }

  /** Widening changes nothing, whatever the events are, if and only if the range starts and
      ends on a minute; otherwise the rollup counts the whole of the first and last minute. */
  lemma ExactIffAligned(q: Request)
    requires 0 <= q.from < q.to
    ensures (forall events :: LiveEvents(events, Widened(q)) == LiveEvents(events, q)) <==>
      Aligned(q.from) && Aligned(q.to)
  {
    if Aligned(q.from) && Aligned(q.to) {
      assert Widened(q) == q;
    } else {
      var at := if Aligned(q.from) then q.to else FloorMinute(q.from) * MILLIS_PER_MINUTE;
      var e := Event(0, if q.endpoint.Some? then q.endpoint.value else 0, "", "", at, "");
      assert e in LiveEvents({e}, Widened(q)) && e !in LiveEvents({e}, q);
    }
  }
}
