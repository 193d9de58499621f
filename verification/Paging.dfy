/** Listing events over the hot store and restored archives: a bounded heap keeps the best
    rows of the restored buckets, whole buckets are skipped, and the page is cut from the
    merge of the best hot rows and the best restored rows. */
module Paging {
  import opened Sorting
  import opened Telemetry
  import opened IngestMetadata

  const MAX_RESTORED_PAGE_WINDOW := 10_000

  datatype Row = Row(at: int, id: int, body: string)

  datatype Order = Asc | Desc

  /** `a` is listed no later than `b`. */
  predicate Ahead(o: Order, a: Row, b: Row) {
    if o.Desc? then a.at > b.at || (a.at == b.at && a.id >= b.id)
    else a.at < b.at || (a.at == b.at && a.id <= b.id)
  }

  function By(o: Order): (Row, Row) -> bool { (a, b) => Ahead(o, a, b) }

  predicate DistinctRows(s: seq<Row>) { forall i, j :: 0 <= i < j < |s| ==> s[i].id != s[j].id }

  /** The first `n` rows of the list that `s` would be sorted into. */
  function Top(o: Order, n: nat, s: seq<Row>): seq<Row> { Take(n, Sort(By(o), s)) }

  // What is asked and what is stored.

  /** `keep` is the whole filter of the request; `plain` says that it asks for nothing but a
      time range (and an endpoint, which selects the buckets). */
  datatype Query = Query(order: Order, page: nat, size: nat, from: int, to: int, plain: bool, keep: Row -> bool)

  ghost predicate Sensible(q: Query) {
    && q.page >= 1 && q.size >= 1
    && (forall r :: q.keep(r) ==> q.from <= r.at < q.to)
    && (q.plain ==> forall r :: q.keep(r) <==> q.from <= r.at < q.to)
  }

  /** An archive bucket: its metadata and the rows of its object. */
  datatype Archive = Archive(start: int, end: Option<int>, count: Option<nat>, rows: seq<Row>)

  /** The rows lie in the bucket's time range and the recorded count is their number. */
  predicate Faithful(b: Archive) {
    && (forall r :: r in b.rows ==> b.start <= r.at)
    && (b.end.Some? ==> forall r :: r in b.rows ==> r.at < b.end.value)
    && (b.count.Some? ==> b.count.value == |b.rows|)
  }

  datatype Entry = HotEntry(endpoint: int, start: int) | S3Entry(endpoint: int, status: Status, archive: Archive)

  function Kept(q: Query, rows: seq<Row>): seq<Row> {
    if rows == [] then [] else (if q.keep(rows[0]) then [rows[0]] else []) + Kept(q, rows[1..])
  }

  function KeptAll(q: Query, buckets: seq<Archive>): seq<Row> {
    if buckets == [] then [] else Kept(q, buckets[0].rows) + KeptAll(q, buckets[1..])
  }

  function ExactCount(q: Query, b: Archive): Option<nat> {
    if q.plain && b.end.Some? && b.count.Some? && q.from <= b.start && b.end.value <= q.to then b.count else None
  }

  predicate CanImprove(o: Order, b: Archive, worst: Row) {
    if o.Desc? then b.end.None? || b.end.value > worst.at else b.start <= worst.at
  }

  function ByStart(o: Order): (Archive, Archive) -> bool {
    (a: Archive, b: Archive) => if o.Desc? then a.start >= b.start else a.start <= b.start
  }

  function HotKeys(entries: seq<Entry>): set<(int, int)> {
    set e | e in entries && e.HotEntry? :: (e.endpoint, e.start)
  }

  /** Archived, not restored, and not covered by the hot store. */
  predicate Unready(entries: seq<Entry>, e: Entry) {
    e.S3Entry? && e.status != Restored && (e.endpoint, e.archive.start) !in HotKeys(entries)
  }

  predicate AnyUnready(entries: seq<Entry>) { exists e :: e in entries && Unready(entries, e) }

  function RestoredBuckets(entries: seq<Entry>, hot: set<(int, int)>): seq<Archive> {
    if entries == [] then []
    else var e := entries[0];
      (if e.S3Entry? && e.status == Restored && (e.endpoint, e.archive.start) !in hot then [e.archive] else [])
      + RestoredBuckets(entries[1..], hot)
  }

  datatype Reply = ArchiveNotReady | WindowTooLarge | Page(rows: seq<Row>, total: nat)

  /** All rows the request is about, hot ones first. */
  function Everything(q: Query, entries: seq<Entry>, hot: seq<Row>): seq<Row> {
    Kept(q, hot) + KeptAll(q, RestoredBuckets(entries, HotKeys(entries)))
  }

  function Offset(q: Query): nat
    requires q.page >= 1
  {
    (q.page - 1) * q.size
  }

  /** The page, by sorting everything and cutting it. */
  function NaivePage(q: Query, rows: seq<Row>): Reply
    requires q.page >= 1
  {
    Page(Slice(Sort(By(q.order), rows), Offset(q), Offset(q) + q.size), |rows|)
  }

  function ListSpec(q: Query, entries: seq<Entry>, hot: seq<Row>): Reply
    requires q.page >= 1
  {
    if AnyUnready(entries) then ArchiveNotReady
    else if RestoredBuckets(entries, HotKeys(entries)) != [] && Offset(q) + q.size > MAX_RESTORED_PAGE_WINDOW then
      WindowTooLarge
    else NaivePage(q, Everything(q, entries, hot))
  }

  // Facts about orders and prefixes.

  lemma ByIsAnOrder(o: Order)
    ensures TotalPreorder(By(o))
  {
  }

  lemma RowsAreDistinguished(o: Order, s: seq<Row>)
    requires DistinctRows(s)
    ensures Distinguishes(By(o), s)
  {
  }

  lemma {:induction false} TakeInsert<T>(leq: (T, T) -> bool, n: nat, x: T, s: seq<T>)
    ensures Take(n, Insert(leq, x, s)) == Take(n, Insert(leq, x, Take(n, s)))
    decreases |s|
  {
    if s != [] && n > 0 {
      TakeCons(n, s[0], s[1..]);
      assert s == [s[0]] + s[1..];
      if leq(x, s[0]) {
        TakeCons(n, x, s);
        TakeCons(n, x, Take(n, s));
        TakeTwice(n, s);
      } else {
        TakeInsert(leq, n - 1, x, s[1..]);
        TakeCons(n, s[0], Insert(leq, x, s[1..]));
        TakeCons(n, s[0], Insert(leq, x, Take(n - 1, s[1..])));
        assert Take(n, s)[1..] == Take(n - 1, s[1..]);
      }
    }
  }

  lemma TakeTwice<T>(n: nat, s: seq<T>)
    requires n > 0
    ensures Take(n - 1, Take(n, s)) == Take(n - 1, s)
  {
  }

  lemma TakeCons<T>(n: nat, x: T, s: seq<T>)
    requires n > 0
    ensures Take(n, [x] + s) == [x] + Take(n - 1, s)
  {
  }

  function InsertAll<T>(leq: (T, T) -> bool, xs: seq<T>, s: seq<T>): seq<T> {
    if xs == [] then s else Insert(leq, xs[0], InsertAll(leq, xs[1..], s))
  }

  lemma {:induction false} SortAppend<T>(leq: (T, T) -> bool, a: seq<T>, b: seq<T>)
    ensures Sort(leq, a + b) == InsertAll(leq, a, Sort(leq, b))
    decreases |a|
  {
    if a == [] { assert a + b == b; } else {
      assert (a + b)[1..] == a[1..] + b && (a + b)[0] == a[0];
      SortAppend(leq, a[1..], b);
    }
  }

  lemma {:induction false} TakeInsertAll<T>(leq: (T, T) -> bool, n: nat, xs: seq<T>, s: seq<T>)
    ensures Take(n, InsertAll(leq, xs, s)) == Take(n, InsertAll(leq, xs, Take(n, s)))
    decreases |xs|
  {
    if xs != [] {
      TakeInsertAll(leq, n, xs[1..], s);
      TakeInsert(leq, n, xs[0], InsertAll(leq, xs[1..], s));
      TakeInsert(leq, n, xs[0], InsertAll(leq, xs[1..], Take(n, s)));
    }
  }

  /** Only the best `n` of one part matter to the best `n` of the whole. */
  lemma TopOfPart(o: Order, n: nat, a: seq<Row>, b: seq<Row>)
    ensures Top(o, n, a + b) == Top(o, n, a + Top(o, n, b))
  {
    var leq := By(o);
    ByIsAnOrder(o);
    SortAppend(leq, a, b);
    SortAppend(leq, a, Top(o, n, b));
    SortSorts(leq, b);
    SortOfSorted(leq, Top(o, n, b));
    TakeInsertAll(leq, n, a, Sort(leq, b));
  }

  lemma TopSwaps(o: Order, n: nat, a: seq<Row>, b: seq<Row>)
    requires DistinctRows(a + b)
    ensures Top(o, n, a + b) == Top(o, n, b + a)
  {
    ByIsAnOrder(o);
    RowsAreDistinguished(o, a + b);
    assert multiset(a + b) == multiset(b + a);
    SortIgnoresOrder(By(o), a + b, b + a);
  }
}
