/** The paged listing equals sorting everything and cutting out the page. */
module PagingTheorems {
  import opened Sorting
  import opened Telemetry
  import opened Paging

  function IdOf(r: Row): int { r.id }

  // Distinctness.

  lemma DistinctPrefix(s: seq<Row>, t: seq<Row>)
    requires DistinctRows(s + t)
    ensures DistinctRows(s) && DistinctRows(t)
  {
    assert forall i :: 0 <= i < |s| ==> (s + t)[i] == s[i];
    assert forall i :: 0 <= i < |t| ==> (s + t)[|s| + i] == t[i];
  }

  lemma DistinctPermuted(s: seq<Row>, t: seq<Row>)
    requires DistinctRows(s) && multiset(s) == multiset(t)
    ensures DistinctRows(t)
  {
    PermutedStaysDistinct(IdOf, s, t);
  }

  lemma DistinctTop(o: Order, n: nat, a: seq<Row>, b: seq<Row>)
    requires DistinctRows(a + b)
    ensures DistinctRows(a + Top(o, n, b))
  {
    var sorted := Sort(By(o), b);
    SortPermutes(By(o), b);
    assert multiset(a + b) == multiset(a + sorted);
    DistinctPermuted(a + b, a + sorted);
    DistinctTake(n, a, sorted);
  }

  lemma DistinctTake(n: nat, a: seq<Row>, b: seq<Row>)
    requires DistinctRows(a + b)
    ensures DistinctRows(a + Take(n, b))
  {
    assert a + b == (a + Take(n, b)) + Drop(n, b);
    DistinctPrefix(a + Take(n, b), Drop(n, b));
  }

  lemma DistinctSwap(a: seq<Row>, b: seq<Row>)
    requires DistinctRows(a + b)
    ensures DistinctRows(b + a)
  {
    assert multiset(a + b) == multiset(b + a);
    DistinctPermuted(a + b, b + a);
  }

  /** The best `n` of two parts are the best `n` of the two parts' best `n`. */
  lemma TopOfParts(o: Order, n: nat, a: seq<Row>, b: seq<Row>)
    requires DistinctRows(a + b)
    ensures Top(o, n, Top(o, n, a) + Top(o, n, b)) == Top(o, n, a + b)
  {
    var ta, tb := Top(o, n, a), Top(o, n, b);
    TopOfPart(o, n, a, b);
    DistinctTop(o, n, a, b);
    TopSwaps(o, n, a, tb);
    TopOfPart(o, n, tb, a);
    DistinctSwap(a, tb);
    DistinctTop(o, n, tb, a);
    TopSwaps(o, n, tb, ta);
  }

  // One row after the other.

  lemma TopStep(o: Order, n: nat, s: seq<Row>, x: Row)
    requires DistinctRows(s + [x])
    ensures Top(o, n, s + [x]) == Take(n, Insert(By(o), x, Top(o, n, s)))
  {
    TopSwaps(o, n, s, [x]);
    assert ([x] + s)[1..] == s;
    TakeInsert(By(o), n, x, Sort(By(o), s));
  }

  lemma TopIsSorted(o: Order, n: nat, s: seq<Row>)
    ensures Sorted(By(o), Top(o, n, s)) && |Top(o, n, s)| <= n
    ensures forall r :: r in Top(o, n, s) ==> r in s
  {
    ByIsAnOrder(o);
    SortSorts(By(o), s);
    SortPermutes(By(o), s);
    SameMultisetSameElements(s, Sort(By(o), s));
  }

  lemma NewToTop(o: Order, n: nat, s: seq<Row>, x: Row)
    requires DistinctRows(s + [x])
    ensures forall r :: r in Top(o, n, s) ==> r.id != x.id
  {
    TopIsSorted(o, n, s);
    assert (s + [x])[|s|] == x;
    forall r | r in s ensures r.id != x.id {
      var k :| 0 <= k < |s| && s[k] == r;
      assert (s + [x])[k] == r;
    }
  }

  lemma {:induction false} InsertLast(o: Order, x: Row, s: seq<Row>)
    requires Sorted(By(o), s) && (s == [] || !Ahead(o, x, s[|s| - 1]))
    ensures Insert(By(o), x, s) == s + [x]
    decreases |s|
  {
    if s != [] {
      ByIsAnOrder(o);
      assert |s| > 1 ==> By(o)(s[0], s[|s| - 1]);
      assert !Ahead(o, x, s[0]);
      InsertLast(o, x, s[1..]);
      assert s == [s[0]] + s[1..];
    }
  }

  lemma {:induction false} InsertBeforeLast(o: Order, x: Row, s: seq<Row>)
    requires s != [] && Ahead(o, x, s[|s| - 1])
    ensures Insert(By(o), x, s) == Insert(By(o), x, s[..|s| - 1]) + [s[|s| - 1]]
    decreases |s|
  {
    var front := s[..|s| - 1];
    assert s == front + [s[|s| - 1]];
    if |s| > 1 && !Ahead(o, x, s[0]) {
      InsertBeforeLast(o, x, s[1..]);
      assert s[1..][..|s| - 2] == front[1..];
    }
  }

  /** `heappush` while there is room, otherwise `heapreplace` when the row beats the worst one.
      `heap` lists the heap's rows best first, so its last row is the one on top of the heap. */
  method Offer(o: Order, limit: nat, heap: seq<Row>, x: Row) returns (heap': seq<Row>)
    requires limit >= 1 && |heap| <= limit && Sorted(By(o), heap) && forall r :: r in heap ==> r.id != x.id
    ensures heap' == Take(limit, Insert(By(o), x, heap))
  {
    if |heap| < limit {
      heap' := Insert(By(o), x, heap);
      InsertPermutes(By(o), x, heap);
    } else if !Ahead(o, heap[limit - 1], x) {
      heap' := Insert(By(o), x, heap[..limit - 1]);
      InsertBeforeLast(o, x, heap);
      InsertPermutes(By(o), x, heap[..limit - 1]);
    } else {
      heap' := heap;
      InsertLast(o, x, heap);
    }
  }

  /** Rows that are all behind the worst of a full heap change nothing. */
  lemma {:induction false} TopIgnores(o: Order, n: nat, s: seq<Row>, xs: seq<Row>)
    requires n >= 1 && DistinctRows(s + xs) && |Top(o, n, s)| == n
    requires forall x :: x in xs ==> !Ahead(o, x, Top(o, n, s)[n - 1])
    ensures Top(o, n, s + xs) == Top(o, n, s)
    decreases |xs|
  {
    if xs == [] {
      assert s + xs == s;
    } else {
      assert s + xs == s + [xs[0]] + xs[1..];
      assert xs[0] in xs && forall x :: x in xs[1..] ==> x in xs;
      DistinctPrefix(s + [xs[0]], xs[1..]);
      TopStep(o, n, s, xs[0]);
      TopIsSorted(o, n, s);
      InsertLast(o, xs[0], Top(o, n, s));
      TopIgnores(o, n, s + [xs[0]], xs[1..]);
    }
  }

  // Buckets.

  lemma {:induction false} KeptIn(q: Query, rows: seq<Row>)
    ensures forall r :: r in Kept(q, rows) <==> r in rows && q.keep(r)
    ensures (forall r :: r in rows ==> q.keep(r)) ==> Kept(q, rows) == rows
    decreases |rows|
  {
    if rows != [] {
      KeptIn(q, rows[1..]);
      assert rows == [rows[0]] + rows[1..];
    }
  }

  lemma ExactCountIsExact(q: Query, b: Archive)
    requires Sensible(q) && Faithful(b) && ExactCount(q, b).Some?
    ensures ExactCount(q, b).value == |Kept(q, b.rows)|
  {
    KeptIn(q, b.rows);
  }

  /** A bucket that cannot improve a full heap may be left unread. */
  lemma SkippedBucketIsIrrelevant(q: Query, n: nat, s: seq<Row>, b: Archive)
    requires Faithful(b) && b.end.Some? && n >= 1
    requires |Top(q.order, n, s)| == n && !CanImprove(q.order, b, Top(q.order, n, s)[n - 1])
    requires DistinctRows(s + Kept(q, b.rows))
    ensures Top(q.order, n, s + Kept(q, b.rows)) == Top(q.order, n, s)
  {
    KeptIn(q, b.rows);
    TopIgnores(q.order, n, s, Kept(q, b.rows));
  }

  method ReadBucket(q: Query, limit: nat, rows: seq<Row>, heap: seq<Row>, ghost s: seq<Row>)
    returns (heap': seq<Row>, matched: nat)
    requires limit >= 1 && heap == Top(q.order, limit, s) && DistinctRows(s + Kept(q, rows))
    ensures heap' == Top(q.order, limit, s + Kept(q, rows)) && matched == |Kept(q, rows)|
  {
    heap', matched := heap, 0;
    ghost var t := s;
    for i := 0 to |rows|
      invariant t + Kept(q, rows[i..]) == s + Kept(q, rows)
      invariant heap' == Top(q.order, limit, t) && |t| == |s| + matched
    {
      assert rows[i..][0] == rows[i] && rows[i..][1..] == rows[i + 1..];
      if q.keep(rows[i]) {
        assert t + Kept(q, rows[i..]) == (t + [rows[i]]) + Kept(q, rows[i + 1..]);
        DistinctPrefix(t + [rows[i]], Kept(q, rows[i + 1..]));
        TopStep(q.order, limit, t, rows[i]);
        TopIsSorted(q.order, limit, t);
        NewToTop(q.order, limit, t, rows[i]);
        heap' := Offer(q.order, limit, heap', rows[i]);
        matched := matched + 1;
        t := t + [rows[i]];
      } else {
        assert [] + Kept(q, rows[i + 1..]) == Kept(q, rows[i + 1..]);
      }
    }
    assert t + [] == t;
  }

  lemma {:induction false} InsertKeepsRows(q: Query, leq: (Archive, Archive) -> bool, b: Archive, s: seq<Archive>)
    ensures multiset(KeptAll(q, Insert(leq, b, s))) == multiset(Kept(q, b.rows)) + multiset(KeptAll(q, s))
    decreases |s|
  {
    if s == [] {
      assert Insert(leq, b, s) == [b];
      assert KeptAll(q, [b]) == Kept(q, b.rows) + KeptAll(q, [b][1..]);
    } else if leq(b, s[0]) {
      assert ([b] + s)[1..] == s;
    } else {
      InsertKeepsRows(q, leq, b, s[1..]);
      assert ([s[0]] + Insert(leq, b, s[1..]))[1..] == Insert(leq, b, s[1..]);
    }
  }

  lemma {:induction false} SortKeepsRows(q: Query, leq: (Archive, Archive) -> bool, s: seq<Archive>)
    ensures multiset(KeptAll(q, Sort(leq, s))) == multiset(KeptAll(q, s))
    decreases |s|
  {
    if s != [] {
      SortKeepsRows(q, leq, s[1..]);
      InsertKeepsRows(q, leq, s[0], Sort(leq, s[1..]));
    }
  }

  lemma TopOfPermuted(o: Order, n: nat, s: seq<Row>, t: seq<Row>)
    requires DistinctRows(s) && multiset(s) == multiset(t)
    ensures Top(o, n, s) == Top(o, n, t) && |s| == |t|
  {
    ByIsAnOrder(o);
    RowsAreDistinguished(o, s);
    SortIgnoresOrder(By(o), s, t);
    SameMultisetSameElements(s, t);
  }

  /** One pass over the restored buckets finds the best rows and the number of all rows. */
  method ScanBuckets(q: Query, limit: nat, ordered: seq<Archive>) returns (heap: seq<Row>, total: nat)
    requires Sensible(q) && limit >= 1
    requires (forall b :: b in ordered ==> Faithful(b)) && DistinctRows(KeptAll(q, ordered))
    ensures heap == Top(q.order, limit, KeptAll(q, ordered)) && total == |KeptAll(q, ordered)|
  {
    heap, total := [], 0;
    ghost var s: seq<Row> := [];
    for i := 0 to |ordered|
      invariant s + KeptAll(q, ordered[i..]) == KeptAll(q, ordered)
      invariant heap == Top(q.order, limit, s) && total == |s|
    {
      var b := ordered[i];
      assert ordered[i..][0] == b && ordered[i..][1..] == ordered[i + 1..];
      ghost var s' := s + Kept(q, b.rows);
      assert s + KeptAll(q, ordered[i..]) == s' + KeptAll(q, ordered[i + 1..]);
      DistinctPrefix(s', KeptAll(q, ordered[i + 1..]));
      TopIsSorted(q.order, limit, s);
      var count := ExactCount(q, b);
      if count.Some? { ExactCountIsExact(q, b); }
      if count.Some? && |heap| >= limit && !CanImprove(q.order, b, heap[limit - 1]) {
        SkippedBucketIsIrrelevant(q, limit, s, b);
        total := total + count.value;
      } else {
        var matched;
        heap, matched := ReadBucket(q, limit, b.rows, heap, s);
        total := total + if count.Some? then count.value else matched;
      }
      s := s';
    }
    assert s + [] == s;
  }

  method RestoredPage(q: Query, limit: nat, buckets: seq<Archive>) returns (heap: seq<Row>, total: nat)
    requires Sensible(q) && limit >= 1
    requires (forall b :: b in buckets ==> Faithful(b)) && DistinctRows(KeptAll(q, buckets))
    ensures heap == Top(q.order, limit, KeptAll(q, buckets)) && total == |KeptAll(q, buckets)|
  {
    var ordered := Sort(ByStart(q.order), buckets);
    SortKeepsRows(q, ByStart(q.order), buckets);
    SortPermutes(ByStart(q.order), buckets);
    SameMultisetSameElements(buckets, ordered);
    DistinctPermuted(KeptAll(q, buckets), KeptAll(q, ordered));
    heap, total := ScanBuckets(q, limit, ordered);
    TopOfPermuted(q.order, limit, KeptAll(q, buckets), KeptAll(q, ordered));
  }

  // The whole listing.

  lemma {:induction false} RestoredIn(entries: seq<Entry>, hot: set<(int, int)>)
    requires forall e :: e in entries && e.S3Entry? ==> Faithful(e.archive)
    ensures forall b :: b in RestoredBuckets(entries, hot) ==> Faithful(b)
    decreases |entries|
  {
    if entries != [] {
      assert entries[0] in entries && forall e :: e in entries[1..] ==> e in entries;
      RestoredIn(entries[1..], hot);
    }
  }

  lemma MergedPageIsThePage(o: Order, from: nat, to: nat, a: seq<Row>, b: seq<Row>)
    requires DistinctRows(a + b)
    ensures Slice(Sort(By(o), Top(o, to, a) + Top(o, to, b)), from, to) == Slice(Sort(By(o), a + b), from, to)
  {
    TopOfParts(o, to, a, b);
  }

  /** The page when there are restored buckets. */
  method MergedPage(q: Query, offset: nat, window: nat, matching: seq<Row>, buckets: seq<Archive>)
    returns (reply: Reply)
    requires Sensible(q) && window >= 1 && forall b :: b in buckets ==> Faithful(b)
    requires DistinctRows(matching + KeptAll(q, buckets))
    ensures var all := matching + KeptAll(q, buckets);
      reply == Page(Slice(Sort(By(q.order), all), offset, window), |all|)
  {
    var hot := Top(q.order, window, matching);
    DistinctPrefix(matching, KeptAll(q, buckets));
    var restored, restoredTotal := RestoredPage(q, window, buckets);
    MergedPageIsThePage(q.order, offset, window, matching, KeptAll(q, buckets));
    return Page(Slice(Sort(By(q.order), hot + restored), offset, window), |matching| + restoredTotal);
  }

  /** `list_rows`. `hotRows` are the rows of the event table; the table answers a search with
      the sorted matching rows, cut to limit and offset. */
  method ListRows(q: Query, entries: seq<Entry>, hotRows: seq<Row>) returns (reply: Reply)
    requires Sensible(q) && forall e :: e in entries && e.S3Entry? ==> Faithful(e.archive)
    requires DistinctRows(Everything(q, entries, hotRows))
    ensures reply == ListSpec(q, entries, hotRows)
  {
    if AnyUnready(entries) { return ArchiveNotReady; }
    var buckets := RestoredBuckets(entries, HotKeys(entries));
    var offset := Offset(q);
    var window := offset + q.size;
    var matching := Kept(q, hotRows);
    if buckets == [] {
      assert Everything(q, entries, hotRows) == matching;
      return Page(Slice(Sort(By(q.order), matching), offset, window), |matching|);
    }
    if window > MAX_RESTORED_PAGE_WINDOW { return WindowTooLarge; }
    RestoredIn(entries, HotKeys(entries));
    reply := MergedPage(q, offset, window, matching, buckets);
  }

  // Pages fit together.

  function Pages(q: Query, rows: seq<Row>, n: nat): seq<Row> {
    if n == 0 then [] else Pages(q, rows, n - 1) + NaivePage(q.(page := n), rows).rows
  }

  lemma SliceContinues<T>(s: seq<T>, a: nat, b: nat)
    requires a <= b
    ensures Take(a, s) + Slice(s, a, b) == Take(b, s)
  {
  }

  /** The first `n` pages, one after the other, are the sorted list up to there: no row is
      shown twice and none is left out. */
  lemma {:induction false} PagesTile(q: Query, rows: seq<Row>, n: nat)
    ensures Pages(q, rows, n) == Take(n * q.size, Sort(By(q.order), rows))
    decreases n
  {
    if n > 0 {
      PagesTile(q, rows, n - 1);
      assert n * q.size == (n - 1) * q.size + q.size && Offset(q.(page := n)) == (n - 1) * q.size;
      SliceContinues(Sort(By(q.order), rows), (n - 1) * q.size, n * q.size);
    } else {
      assert 0 * q.size == 0;
    }
  }

  /** Once the pages reach the total, every row has been shown exactly once. */
  lemma AllPagesShowEveryRow(q: Query, rows: seq<Row>, n: nat)
    requires n * q.size >= |rows|
    ensures multiset(Pages(q, rows, n)) == multiset(rows)
  {
    PagesTile(q, rows, n);
    SortPermutes(By(q.order), rows);
  }
}
