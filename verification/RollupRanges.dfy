/** Which minutes of the dashboard rollup are missing, how ranges of minutes are merged, cut
    at frozen days and split into chunks. Minutes are counted from the epoch. */
module RollupRanges {
  import opened Basics
  import opened Telemetry
  import opened Sorting

  /** The minutes from `start` up to, but not including, `end`. */
  datatype Range = Range(start: int, end: int)

  predicate In(r: Range, m: int) { r.start <= m < r.end }

  ghost predicate InAny(rs: seq<Range>, m: int) { exists i :: 0 <= i < |rs| && In(rs[i], m) }

  /** No empty range, in order, and with a gap between any two. */
  predicate Tidy(rs: seq<Range>) {
    && (forall i :: 0 <= i < |rs| ==> rs[i].start < rs[i].end)
    && (forall i, j :: 0 <= i < j < |rs| ==> rs[i].end < rs[j].start)
  }

  ghost predicate SameMinutes(a: seq<Range>, b: seq<Range>) { forall m :: InAny(a, m) <==> InAny(b, m) }

  lemma InAnyAppend(a: seq<Range>, r: Range, m: int)
    ensures InAny(a + [r], m) <==> InAny(a, m) || In(r, m)
  {
    if InAny(a, m) {
      var i :| 0 <= i < |a| && In(a[i], m);
      assert In((a + [r])[i], m);
    }
    if In(r, m) { assert In((a + [r])[|a|], m); }
  }

  lemma InAnyCons(r: Range, a: seq<Range>, m: int)
    ensures InAny([r] + a, m) <==> In(r, m) || InAny(a, m)
  {
    if InAny(a, m) {
      var i :| 0 <= i < |a| && In(a[i], m);
      assert In(([r] + a)[i + 1], m);
    }
    if In(r, m) { assert In(([r] + a)[0], m); }
  }

  lemma AppendedMinutes(a: seq<Range>, r: Range)
    ensures forall m :: InAny(a + [r], m) <==> InAny(a, m) || In(r, m)
  {
    forall m ensures InAny(a + [r], m) <==> InAny(a, m) || In(r, m) { InAnyAppend(a, r, m); }
  }

  // A tidy list is determined by its minutes.

  lemma InFirst(a: seq<Range>, m: int)
    requires a != []
    ensures In(a[0], m) ==> InAny(a, m)
  {
  }

  lemma TidyGapAfter(a: seq<Range>, m: int)
    requires Tidy(a) && a != []
    ensures InAny(a[1..], m) <==> InAny(a, m) && m >= a[0].end
    ensures !InAny(a, a[0].end)
  {
  }

  lemma BothEmpty(a: seq<Range>, b: seq<Range>)
    requires Tidy(a) && Tidy(b) && SameMinutes(a, b)
    ensures a == [] <==> b == []
  {
    if a != [] { InFirst(a, a[0].start); }
    if b != [] { InFirst(b, b[0].start); }
  }

  lemma SameFirstRange(a: seq<Range>, b: seq<Range>)
    requires Tidy(a) && Tidy(b) && SameMinutes(a, b) && a != [] && b != []
    ensures a[0].start >= b[0].start && a[0].end <= b[0].end
  {
    InFirst(a, a[0].start);
    InFirst(a, b[0].end);
    TidyGapAfter(b, 0);
    assert InAny(b, a[0].start);
    var i :| 0 <= i < |b| && In(b[i], a[0].start);
    InFirst(b, b[0].start);
  }

  lemma SameTails(a: seq<Range>, b: seq<Range>)
    requires Tidy(a) && Tidy(b) && SameMinutes(a, b) && a != [] && b != [] && a[0] == b[0]
    ensures Tidy(a[1..]) && Tidy(b[1..]) && SameMinutes(a[1..], b[1..])
  {
    forall m ensures InAny(a[1..], m) <==> InAny(b[1..], m) {
      TidyGapAfter(a, m);
      TidyGapAfter(b, m);
    }
  }

  lemma SameFirstRanges(a: seq<Range>, b: seq<Range>)
    requires Tidy(a) && Tidy(b) && SameMinutes(a, b) && a != [] && b != []
    ensures a[0] == b[0]
  {
    SameFirstRange(a, b);
    assert SameMinutes(b, a);
    SameFirstRange(b, a);
  }

  /** Two tidy lists of the same minutes are the same list. */
  lemma {:induction false} TidyIsUnique(a: seq<Range>, b: seq<Range>)
    requires Tidy(a) && Tidy(b) && SameMinutes(a, b)
    ensures a == b
    decreases |a|
  {
    BothEmpty(a, b);
    if a != [] {
      SameFirstRanges(a, b);
      SameTails(a, b);
      TidyIsUnique(a[1..], b[1..]);
      assert a == [a[0]] + a[1..] && b == [b[0]] + b[1..];
    }
  }

  // Missing minutes.

  function FloorMinute(at: int): int { at / MILLIS_PER_MINUTE }

  function CeilMinute(at: int): int {
    if at % MILLIS_PER_MINUTE == 0 then at / MILLIS_PER_MINUTE else at / MILLIS_PER_MINUTE + 1
  }

  /** `_coverage_bounds`: the whole minutes that touch the time range. */
  function CoverageBounds(from: int, to: int): Range { Range(FloorMinute(from), CeilMinute(to)) }

  /** The bounds are exactly the minutes that hold some instant of the time range. */
  lemma BoundsAreTheTouchedMinutes(from: int, to: int, m: int)
    requires from < to
    ensures In(CoverageBounds(from, to), m) <==> exists at :: from <= at < to && FloorMinute(at) == m
  {
    if In(CoverageBounds(from, to), m) {
      var at := if m * MILLIS_PER_MINUTE < from then from else m * MILLIS_PER_MINUTE;
      assert from <= at < to && FloorMinute(at) == m;
    }
  }

  function MissingMinutes(covered: set<int>, lo: int, hi: int): seq<int>
    decreases hi - lo
  {
    if lo >= hi then []
    else (if lo in covered then [] else [lo]) + MissingMinutes(covered, lo + 1, hi)
  }

  predicate Increasing(ms: seq<int>) { forall i, j :: 0 <= i < j < |ms| ==> ms[i] < ms[j] }

  lemma {:induction false} MissingMinutesAre(covered: set<int>, lo: int, hi: int)
    ensures forall m :: m in MissingMinutes(covered, lo, hi) <==> lo <= m < hi && m !in covered
    decreases hi - lo
  {
    if lo < hi { MissingMinutesAre(covered, lo + 1, hi); }
  }

  lemma {:induction false} MissingMinutesIncrease(covered: set<int>, lo: int, hi: int)
    ensures Increasing(MissingMinutes(covered, lo, hi))
    decreases hi - lo
  {
    if lo < hi {
      MissingMinutesIncrease(covered, lo + 1, hi);
      MissingMinutesAre(covered, lo + 1, hi);
      var rest := MissingMinutes(covered, lo + 1, hi);
      forall j | 0 <= j < |rest| ensures lo < rest[j] { assert rest[j] in rest; }
    }
  }

  /** The minutes read so far: the finished ranges and the one from `start` to `previous`. */
  ghost predicate Grouped(ms: seq<int>, ranges: seq<Range>, start: int, previous: int) {
    && start <= previous && Tidy(ranges) && (ranges == [] || ranges[|ranges| - 1].end < start)
    && (forall m :: m in ms <==> InAny(ranges, m) || start <= m <= previous)
  }

  lemma GroupedNext(ms: seq<int>, ranges: seq<Range>, start: int, previous: int, current: int)
    requires Grouped(ms, ranges, start, previous) && current == previous + 1
    ensures Grouped(ms + [current], ranges, start, current)
  {
  }

  lemma GroupedCut(ms: seq<int>, ranges: seq<Range>, start: int, previous: int, current: int)
    requires Grouped(ms, ranges, start, previous) && current > previous + 1
    ensures Grouped(ms + [current], ranges + [Range(start, previous + 1)], current, current)
  {
    AppendedMinutes(ranges, Range(start, previous + 1));
  }

  /** The grouping loop: runs of consecutive minutes become ranges. */
  method GroupMinutes(ms: seq<int>) returns (ranges: seq<Range>)
    requires Increasing(ms)
    ensures Tidy(ranges) && forall m :: InAny(ranges, m) <==> m in ms
  {
    if ms == [] { return []; }
    ranges := [];
    var start, previous := ms[0], ms[0];
    assert ms[..1] == [ms[0]];
    for i := 1 to |ms|
      invariant previous == ms[i - 1] && Grouped(ms[..i], ranges, start, previous)
    {
      var current := ms[i];
      assert ms[..i + 1] == ms[..i] + [current];
      if current - previous > 1 {
        GroupedCut(ms[..i], ranges, start, previous, current);
        ranges := ranges + [Range(start, previous + 1)];
        start := current;
      } else {
        GroupedNext(ms[..i], ranges, start, previous, current);
      }
      previous := current;
    }
    assert ms[..|ms|] == ms;
    AppendedMinutes(ranges, Range(start, previous + 1));
    ranges := ranges + [Range(start, previous + 1)];
  }

  /** Exactly the uncovered minutes of the range, as a tidy list. */
  method MissingRanges(covered: set<int>, from: int, to: int) returns (ranges: seq<Range>)
    ensures Tidy(ranges)
    ensures forall m :: InAny(ranges, m) <==> from < to && In(CoverageBounds(from, to), m) && m !in covered
  {
    if from >= to { return []; }
    var bounds := CoverageBounds(from, to);
    MissingMinutesAre(covered, bounds.start, bounds.end);
    MissingMinutesIncrease(covered, bounds.start, bounds.end);
    ranges := GroupMinutes(MissingMinutes(covered, bounds.start, bounds.end));
  }

  function CoveredIn(covered: set<int>, bounds: Range): set<int> {
    set m | m in covered && In(bounds, m)
  }

  /** `covers_range`: as many covered minutes as the range has. */
  predicate CoversRange(covered: set<int>, from: int, to: int) {
    var bounds := CoverageBounds(from, to);
    from >= to || |CoveredIn(covered, bounds)| == bounds.end - bounds.start
  }

  function Minutes(lo: int, hi: int): set<int>
    decreases hi - lo
  {
    if lo >= hi then {} else {lo} + Minutes(lo + 1, hi)
  }

  lemma {:induction false} MinutesAre(lo: int, hi: int)
    requires lo <= hi
    ensures |Minutes(lo, hi)| == hi - lo && forall m :: m in Minutes(lo, hi) <==> lo <= m < hi
    decreases hi - lo
  {
    if lo < hi { MinutesAre(lo + 1, hi); }
  }

  /** Counting decides coverage: the range is reported as covered exactly when no minute of it
      is missing. */
  lemma CoversIffNothingMissing(covered: set<int>, from: int, to: int)
    requires from < to
    ensures CoversRange(covered, from, to) <==> forall m :: In(CoverageBounds(from, to), m) ==> m in covered
  {
    var bounds := CoverageBounds(from, to);
    var all := Minutes(bounds.start, bounds.end);
    MinutesAre(bounds.start, bounds.end);
    var some := CoveredIn(covered, bounds);
    assert some <= all;
    assert forall m :: In(bounds, m) <==> m in all;
    if |some| == |all| {
      SubsetOfEqualSize(some, all);
      assert forall m :: In(bounds, m) ==> m in some;
    }
    if forall m :: In(bounds, m) ==> m in covered {
      forall m | m in all ensures m in some { assert In(bounds, m); }
      assert some == all;
    }
  }

  // Merging ranges.

  predicate StartsFirst(a: Range, b: Range) { a.start < b.start || (a.start == b.start && a.end <= b.end) }

  function NonEmpty(rs: seq<Range>): seq<Range> {
    if rs == [] then [] else (if rs[0].start < rs[0].end then [rs[0]] else []) + NonEmpty(rs[1..])
  }

  lemma {:induction false} NonEmptyIs(rs: seq<Range>)
    ensures SameMinutes(NonEmpty(rs), rs)
    ensures forall i :: 0 <= i < |NonEmpty(rs)| ==> NonEmpty(rs)[i].start < NonEmpty(rs)[i].end
    decreases |rs|
  {
    if rs != [] {
      NonEmptyIs(rs[1..]);
      assert rs == [rs[0]] + rs[1..] && [] + NonEmpty(rs[1..]) == NonEmpty(rs[1..]);
      forall m ensures InAny(NonEmpty(rs), m) <==> InAny(rs, m) {
        InAnyCons(rs[0], rs[1..], m);
        InAnyCons(rs[0], NonEmpty(rs[1..]), m);
      }
    }
  }

  lemma SameElementsSameMinutes(a: seq<Range>, b: seq<Range>)
    requires forall r :: r in a <==> r in b
    ensures SameMinutes(a, b)
  {
    forall m ensures InAny(a, m) <==> InAny(b, m) {
      if InAny(a, m) {
        var i :| 0 <= i < |a| && In(a[i], m);
        assert a[i] in b;
      }
      if InAny(b, m) {
        var i :| 0 <= i < |b| && In(b[i], m);
        assert b[i] in a;
      }
    }
  }

  lemma OrderedRanges(rs: seq<Range>) returns (ordered: seq<Range>)
    ensures ordered == Sort(StartsFirst, NonEmpty(rs)) && SameMinutes(ordered, rs)
    ensures forall i :: 0 <= i < |ordered| ==> ordered[i].start < ordered[i].end
    ensures forall i, j :: 0 <= i < j < |ordered| ==> ordered[i].start <= ordered[j].start
  {
    ordered := Sort(StartsFirst, NonEmpty(rs));
    NonEmptyIs(rs);
    SortSorts(StartsFirst, NonEmpty(rs));
    SortPermutes(StartsFirst, NonEmpty(rs));
    SameMultisetSameElements(ordered, NonEmpty(rs));
    SameElementsSameMinutes(ordered, NonEmpty(rs));
    forall i | 0 <= i < |ordered| ensures ordered[i].start < ordered[i].end { assert ordered[i] in NonEmpty(rs); }
  }

  /** The last range of the list grows to include `r`, or `r` is added behind it. */
  function MergeNext(merged: seq<Range>, r: Range): seq<Range>
    requires merged != []
  {
    var last := merged[|merged| - 1];
    if r.start <= last.end then merged[..|merged| - 1] + [Range(last.start, Most(last.end, r.end))] else merged + [r]
  }

  lemma MergeNextIs(merged: seq<Range>, r: Range, m: int)
    requires merged != [] && Tidy(merged) && merged[|merged| - 1].start <= r.start < r.end
    ensures Tidy(MergeNext(merged, r)) && MergeNext(merged, r)[|MergeNext(merged, r)| - 1].start <= r.start
    ensures InAny(MergeNext(merged, r), m) <==> InAny(merged, m) || In(r, m)
  {
    var done, last := merged[..|merged| - 1], merged[|merged| - 1];
    assert merged == done + [last];
    if r.start <= last.end {
      InAnyAppend(done, last, m);
      InAnyAppend(done, Range(last.start, Most(last.end, r.end)), m);
    } else {
      InAnyAppend(merged, r, m);
    }
  }

  lemma MergeNextMinutes(merged: seq<Range>, seen: seq<Range>, r: Range)
    requires merged != [] && Tidy(merged) && merged[|merged| - 1].start <= r.start < r.end && SameMinutes(merged, seen)
    ensures Tidy(MergeNext(merged, r)) && MergeNext(merged, r)[|MergeNext(merged, r)| - 1].start <= r.start
    ensures SameMinutes(MergeNext(merged, r), seen + [r])
  {
    MergeNextIs(merged, r, 0);
    forall m ensures InAny(MergeNext(merged, r), m) <==> InAny(seen + [r], m) {
      MergeNextIs(merged, r, m);
      InAnyAppend(seen, r, m);
    }
  }

  /** `_merge_ranges`: the same minutes, tidy. */
  method MergeRanges(rs: seq<Range>) returns (merged: seq<Range>)
    ensures Tidy(merged) && SameMinutes(merged, rs)
  {
    ghost var order := OrderedRanges(rs);
    var ordered := Sort(StartsFirst, NonEmpty(rs));
    if ordered == [] { return []; }
    merged := [ordered[0]];
    assert ordered[..1] == merged;
    for i := 1 to |ordered|
      invariant merged != [] && Tidy(merged) && merged[|merged| - 1].start <= ordered[i - 1].start
      invariant SameMinutes(merged, ordered[..i])
    {
      assert ordered[..i + 1] == ordered[..i] + [ordered[i]];
      MergeNextMinutes(merged, ordered[..i], ordered[i]);
      merged := MergeNext(merged, ordered[i]);
    }
    assert ordered[..|ordered|] == ordered;
  }

  // Cutting at frozen days.

  lemma SameDay(cursor: int)
    ensures var nextDay := (DayOfMinute(cursor) + 1) * MINUTES_PER_DAY;
      nextDay > cursor && forall m :: cursor <= m < nextDay ==> DayOfMinute(m) == DayOfMinute(cursor)
  {
  }

  /** `_refreshable_range_segments`: exactly the minutes of the range on days that are not
      frozen, as a tidy list. */
  method RefreshableSegments(range: Range, frozen: set<int>) returns (segments: seq<Range>)
    requires range.start < range.end
    ensures Tidy(segments)
    ensures forall m :: InAny(segments, m) <==> In(range, m) && DayOfMinute(m) !in frozen
  {
    segments := [];
    var cursor, current: Option<int> := range.start, None;
    while cursor < range.end
      invariant range.start <= cursor <= range.end
      invariant Tidy(segments) && (segments == [] || segments[|segments| - 1].end < cursor)
      invariant current.Some? ==>
        range.start <= current.value < cursor && (segments == [] || segments[|segments| - 1].end < current.value)
      invariant forall m :: range.start <= m < cursor && DayOfMinute(m) !in frozen <==>
        InAny(segments, m) || (current.Some? && current.value <= m < cursor)
      decreases range.end - cursor
    {
      var nextDay := (DayOfMinute(cursor) + 1) * MINUTES_PER_DAY;
      var end := if nextDay < range.end then nextDay else range.end;
      SameDay(cursor);
      if DayOfMinute(cursor) in frozen {
        if current.Some? {
          AppendedMinutes(segments, Range(current.value, cursor));
          segments := segments + [Range(current.value, cursor)];
          current := None;
        }
      } else if current.None? {
        current := Some(cursor);
      }
      cursor := end;
    }
    if current.Some? {
      AppendedMinutes(segments, Range(current.value, range.end));
      segments := segments + [Range(current.value, range.end)];
    }
  }
}
