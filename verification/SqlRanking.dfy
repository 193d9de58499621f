/** `row_number() OVER (ORDER BY ..)` and aggregation of the first rows: what a query that ranks
    its rows returns is what sorting them and taking the first ones gives. */
module SqlRanking {
  import opened Sorting

  /** `row_number() - 1`: how many rows come strictly before `a`. */
  function Place<T>(leq: (T, T) -> bool, all: seq<T>, a: T): nat {
    if all == [] then 0 else (if leq(a, all[0]) then 0 else 1) + Place(leq, all[1..], a)
  }

  function RowWithin<T>(leq: (T, T) -> bool, x: T, all: seq<T>, k: nat): seq<T> {
    if Place(leq, all, x) < k then [x] else []
  }

  /** `FILTER (WHERE rank <= k)`. */
  function Within<T>(leq: (T, T) -> bool, rows: seq<T>, all: seq<T>, k: nat): seq<T> {
    if rows == [] then [] else RowWithin(leq, rows[0], all, k) + Within(leq, rows[1..], all, k)
  }

  function ByPlace<T>(leq: (T, T) -> bool, all: seq<T>): (T, T) -> bool {
    (a, b) => Place(leq, all, a) <= Place(leq, all, b)
  }

  /** The first `k` rows, aggregated in the order of their rank. */
  function RankedItems<T>(leq: (T, T) -> bool, rows: seq<T>, k: nat): seq<T> {
    Sort(ByPlace(leq, rows), Within(leq, rows, rows, k))
  }

  lemma {:induction false} InsertPlace<T>(leq: (T, T) -> bool, x: T, s: seq<T>, a: T)
    ensures Place(leq, Insert(leq, x, s), a) == (if leq(a, x) then 0 else 1) + Place(leq, s, a)
    decreases |s|
  {
    if s != [] && !leq(x, s[0]) { InsertPlace(leq, x, s[1..], a); }
  }

  /** Places do not depend on the order in which the rows are scanned. */
  lemma {:induction false} SortPlace<T>(leq: (T, T) -> bool, s: seq<T>, a: T)
    ensures Place(leq, Sort(leq, s), a) == Place(leq, s, a)
    decreases |s|
  {
    if s != [] {
      SortPlace(leq, s[1..], a);
      InsertPlace(leq, s[0], Sort(leq, s[1..]), a);
    }
  }

  /** Sorted, and no two rows compare equal. */
  ghost predicate Strictly<T(!new)>(leq: (T, T) -> bool, s: seq<T>) {
    forall i, j :: 0 <= i < j < |s| ==> leq(s[i], s[j]) && !leq(s[j], s[i])
  }

  lemma SortIsStrict<T(!new), K>(leq: (T, T) -> bool, key: T -> K, s: seq<T>)
    requires TotalPreorder(leq) && Distinguishes(leq, s) && DistinctBy(key, s)
    ensures Strictly(leq, Sort(leq, s))
  {
    var t := Sort(leq, s);
    SortSorts(leq, s);
    SortPermutes(leq, s);
    SameMultisetSameElements(s, t);
    PermutedStaysDistinct(key, s, t);
    forall i, j | 0 <= i < j < |t| ensures leq(t[i], t[j]) && !leq(t[j], t[i]) {
      assert key(t[i]) != key(t[j]) && t[i] in s && t[j] in s;
    }
  }

  /** In a sorted list the place is the index. */
  lemma {:induction false} PlaceIsIndex<T(!new)>(leq: (T, T) -> bool, s: seq<T>, i: nat, j: nat)
    requires TotalPreorder(leq) && Strictly(leq, s) && i < |s| && j <= |s|
    ensures Place(leq, s[j..], s[i]) == if j <= i then i - j else 0
    decreases |s| - j
  {
    if j < |s| {
      PlaceIsIndex(leq, s, i, j + 1);
      assert s[j..][1..] == s[j + 1..] && s[j..][0] == s[j];
      assert leq(s[i], s[i]);
    }
  }

  lemma PlaceAt<T(!new)>(leq: (T, T) -> bool, s: seq<T>, i: nat)
    requires TotalPreorder(leq) && Strictly(leq, s) && i < |s|
    ensures Place(leq, s, s[i]) == i
  {
    PlaceIsIndex(leq, s, i, 0);
    assert s[0..] == s;
  }

  lemma DropTake<T>(s: seq<T>, j: nat, k: nat)
    requires j < |s|
    ensures Drop(j, Take(k, s)) == (if j < k then [s[j]] else []) + Drop(j + 1, Take(k, s))
  {
  }

  lemma {:induction false} WithinSorted<T(!new)>(leq: (T, T) -> bool, s: seq<T>, j: nat, k: nat)
    requires j <= |s| && forall i :: 0 <= i < |s| ==> Place(leq, s, s[i]) == i
    ensures Within(leq, s[j..], s, k) == Drop(j, Take(k, s))
    decreases |s| - j
  {
    if j == |s| {
      assert s[j..] == [] && Drop(j, Take(k, s)) == [];
    } else {
      WithinSorted(leq, s, j + 1, k);
      assert RowWithin(leq, s[j], s, k) == if j < k then [s[j]] else [];
      assert s[j..] == [s[j]] + s[j + 1..];
      WithinCons(leq, s[j], s[j + 1..], s, k);
      DropTake(s, j, k);
    }
  }

  lemma WithinCons<T>(leq: (T, T) -> bool, x: T, s: seq<T>, all: seq<T>, k: nat)
    ensures Within(leq, [x] + s, all, k) == RowWithin(leq, x, all, k) + Within(leq, s, all, k)
  {
    assert ([x] + s)[1..] == s;
  }

  lemma {:induction false} InsertWithin<T>(leq: (T, T) -> bool, x: T, s: seq<T>, all: seq<T>, k: nat)
    ensures multiset(Within(leq, Insert(leq, x, s), all, k)) ==
      multiset(RowWithin(leq, x, all, k)) + multiset(Within(leq, s, all, k))
    decreases |s|
  {
    if s == [] {
      assert Insert(leq, x, s) == [x] + [];
      WithinCons(leq, x, [], all, k);
    } else if leq(x, s[0]) {
      WithinCons(leq, x, s, all, k);
    } else {
      InsertWithin(leq, x, s[1..], all, k);
      WithinCons(leq, s[0], Insert(leq, x, s[1..]), all, k);
    }
  }

  lemma {:induction false} SortWithin<T>(leq: (T, T) -> bool, s: seq<T>, all: seq<T>, k: nat)
    ensures multiset(Within(leq, Sort(leq, s), all, k)) == multiset(Within(leq, s, all, k))
    decreases |s|
  {
    if s != [] {
      SortWithin(leq, s[1..], all, k);
      InsertWithin(leq, s[0], Sort(leq, s[1..]), all, k);
    }
  }

  lemma {:induction false} WithinSamePlaces<T>(leq: (T, T) -> bool, rows: seq<T>, all: seq<T>, k: nat)
    ensures Within(leq, rows, Sort(leq, all), k) == Within(leq, rows, all, k)
    decreases |rows|
  {
    if rows != [] {
      WithinSamePlaces(leq, rows[1..], all, k);
      SortPlace(leq, all, rows[0]);
    }
  }

  lemma FirstAreByPlace<T(!new)>(leq: (T, T) -> bool, rows: seq<T>, k: nat)
    requires TotalPreorder(leq) && Strictly(leq, Sort(leq, rows))
    ensures Sorted(ByPlace(leq, rows), Take(k, Sort(leq, rows)))
    ensures Distinguishes(ByPlace(leq, rows), Take(k, Sort(leq, rows)))
  {
    var s := Sort(leq, rows);
    forall i | 0 <= i < |s| ensures Place(leq, rows, s[i]) == i {
      PlaceAt(leq, s, i);
      SortPlace(leq, rows, s[i]);
    }
  }

  /** The ranked rows a query aggregates are the first rows of the sorted list. */
  lemma RankedItemsAreTheFirst<T(!new), K>(leq: (T, T) -> bool, key: T -> K, rows: seq<T>, k: nat)
    requires TotalPreorder(leq) && Distinguishes(leq, rows) && DistinctBy(key, rows)
    ensures RankedItems(leq, rows, k) == Take(k, Sort(leq, rows))
  {
    var s, order := Sort(leq, rows), ByPlace(leq, rows);
    var kept, first := Within(leq, rows, rows, k), Take(k, s);
    SortIsStrict(leq, key, rows);
    assert multiset(kept) == multiset(first) by {
      SortWithin(leq, rows, rows, k);
      WithinSamePlaces(leq, s, rows, k);
      forall i | 0 <= i < |s| ensures Place(leq, s, s[i]) == i {
        PlaceAt(leq, s, i);
      }
      WithinSorted(leq, s, 0, k);
      assert s[0..] == s && Drop(0, first) == first;
    }
    FirstAreByPlace(leq, rows, k);
    SortSorts(order, kept);
    SortPermutes(order, kept);
    SameMultisetSameElements(Sort(order, kept), first);
    SortedIsUnique(order, Sort(order, kept), first);
  }
}
