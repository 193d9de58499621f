/** What packing guarantees: no overlap, nothing floats, and packing twice is packing once. */
module LayoutTheorems {
  import opened Sorting
  import opened LayoutPacking

  ghost predicate NoOverlap(ws: seq<Widget>) {
    forall a, b :: a in ws && b in ws && a.id != b.id ==> !Collides(a, b)
  }

  /** Some other widget stops `a` from sitting at row `z`. */
  ghost predicate Propped(a: Widget, z: int, ws: seq<Widget>) {
    exists o :: o in ws && o.id != a.id && Collides(a.(y := z), o)
  }

  ghost predicate Supported(ws: seq<Widget>) {
    forall a, z :: a in ws && 0 <= z < a.y ==> Propped(a, z, ws)
  }

  /** No overlap, and no widget could move up to any higher row. */
  ghost predicate Settled(ws: seq<Widget>) { AllShaped(ws) && NoOverlap(ws) && Supported(ws) }

  ghost predicate SameElements(s: seq<Widget>, t: seq<Widget>) { forall v :: v in s <==> v in t }

  lemma SettledOnElements(s: seq<Widget>, t: seq<Widget>)
    requires SameElements(s, t) && Settled(s)
    ensures Settled(t)
  {
    forall a, z | a in t && 0 <= z < a.y ensures Propped(a, z, t) { assert Propped(a, z, s); }
  }

  /** Whatever props a settled widget lies strictly above it. */
  lemma PropsLieAbove(a: Widget, z: int, o: Widget)
    requires Shaped(a) && Shaped(o) && z < a.y && !Collides(a, o) && Collides(a.(y := z), o)
    ensures o.y < a.y
  {
  }

  // Stacking settles.

  lemma LandKeepsSettled(v: Widget, placed: seq<Widget>)
    requires Shaped(v) && Settled(placed) && forall o :: o in placed ==> o.id != v.id
    ensures Settled(placed + [Land(v, placed)])
  {
    var c := Land(v, placed);
    var all := placed + [c];
    forall a, z | a in all && 0 <= z < a.y ensures Propped(a, z, all) {
      if a in placed {
        assert Propped(a, z, placed);
      } else {
        assert a == c && !Fits(v, z, placed);
        var o :| o in placed && Collides(v.(y := z), o);
        assert a.(y := z) == v.(y := z) && o in all;
      }
    }
    forall a, b | a in all && b in all && a.id != b.id ensures !Collides(a, b) {
      if a in placed && b in placed {
      } else if a in placed {
        assert v.(y := c.y) == c && !Collides(c, a);
      } else {
        assert v.(y := c.y) == c && !Collides(c, b);
      }
    }
  }

  /** Only rows change, and nothing is reordered or lost. */
  ghost predicate Moved(before: seq<Widget>, after: seq<Widget>) {
    |before| == |after| && forall i :: 0 <= i < |before| ==> after[i] == before[i].(y := after[i].y)
  }

  lemma {:induction false} StackMoves(rest: seq<Widget>, placed: seq<Widget>)
    requires AllShaped(rest)
    ensures Moved(placed + rest, Stack(rest, placed))
    decreases |rest|
  {
    if rest != [] {
      var next := placed + [Land(rest[0], placed)];
      StackMoves(rest[1..], next);
      var all, r := next + rest[1..], Stack(rest, placed);
      forall i | 0 <= i < |placed + rest| ensures r[i] == (placed + rest)[i].(y := r[i].y) {
        assert r[i] == all[i].(y := r[i].y);
      }
    } else {
      assert placed + rest == placed;
    }
  }

  lemma {:induction false} StackSettles(rest: seq<Widget>, placed: seq<Widget>)
    requires AllShaped(rest) && Settled(placed) && DistinctIds(placed + rest)
    ensures Settled(Stack(rest, placed))
    decreases |rest|
  {
    if rest != [] {
      var next := placed + [Land(rest[0], placed)];
      forall o | o in placed ensures o.id != rest[0].id {
        var k :| 0 <= k < |placed| && placed[k] == o;
        assert (placed + rest)[k] == o && (placed + rest)[|placed|] == rest[0];
      }
      LandKeepsSettled(rest[0], placed);
      SameIdsAfterLanding(rest, placed);
      StackSettles(rest[1..], next);
    }
  }

  lemma SameIdsAfterLanding(rest: seq<Widget>, placed: seq<Widget>)
    requires rest != [] && Shaped(rest[0]) && DistinctIds(placed + rest)
    ensures DistinctIds(placed + [Land(rest[0], placed)] + rest[1..])
  {
    var s, t := placed + rest, placed + [Land(rest[0], placed)] + rest[1..];
    assert |s| == |t|;
    assert forall i :: 0 <= i < |s| ==> s[i].id == t[i].id;
  }

  // A settled arrangement stays where it is.

  lemma LandStays(v: Widget, placed: seq<Widget>, all: seq<Widget>)
    requires Settled(all) && v in all
    requires forall o :: o in placed ==> o in all && o.id != v.id
    requires forall o :: o in all && o.y < v.y ==> o in placed
    ensures Land(v, placed) == v
  {
    assert Fits(v, v.y, placed) by { assert v.(y := v.y) == v; }
    forall z | 0 <= z < v.y ensures !Fits(v, z, placed) {
      assert Propped(v, z, all);
      var o :| o in all && o.id != v.id && Collides(v.(y := z), o);
      PropsLieAbove(v, z, o);
    }
  }

  lemma {:induction false} StackStays(registry: seq<string>, rest: seq<Widget>, placed: seq<Widget>)
    requires DistinctIds(placed + rest) && Settled(placed + rest) && AllShaped(rest)
    requires Sorted(ByRow(registry), placed + rest)
    ensures Stack(rest, placed) == placed + rest
    decreases |rest|
  {
    var all := placed + rest;
    if rest == [] {
      assert all == placed;
    } else {
      var v := rest[0];
      assert all[|placed|] == v;
      forall o | o in placed ensures o in all && o.id != v.id {
        var k :| 0 <= k < |placed| && placed[k] == o;
        assert all[k] == o;
      }
      forall o | o in all && o.y < v.y ensures o in placed {
        var k :| 0 <= k < |all| && all[k] == o;
      }
      LandStays(v, placed, all);
      assert placed + [v] + rest[1..] == all;
      StackStays(registry, rest[1..], placed + [v]);
    }
  }

  // From the stack back to the list of widgets.

  lemma {:induction false} ReplaceFinds(v: Widget, placed: seq<Widget>, k: nat)
    requires k < |placed| && placed[k].id == v.id && DistinctIds(placed)
    ensures Replace(v, placed) == placed[k]
    decreases |placed|
  {
    if k > 0 { ReplaceFinds(v, placed[1..], k - 1); }
  }

  lemma {:induction false} ReplaceMisses(v: Widget, placed: seq<Widget>)
    requires forall o :: o in placed ==> o.id != v.id
    ensures Replace(v, placed) == v
    decreases |placed|
  {
    if placed != [] { ReplaceMisses(v, placed[1..]); }
  }

  lemma {:induction false} VisibleDistinct(ws: seq<Widget>)
    requires DistinctIds(ws)
    ensures DistinctIds(Visible(ws))
    decreases |ws|
  {
    if ws != [] {
      VisibleDistinct(ws[1..]);
      VisibleIn(ws[1..]);
      assert forall o :: o in ws[1..] ==> o.id != ws[0].id;
      var tail := Visible(ws[1..]);
      assert forall i :: 0 <= i < |tail| ==> tail[i] in ws[1..];
    }
  }

  function IdOf(v: Widget): string { v.id }

  /** The visible widgets in placing order. */
  ghost function InOrder(registry: seq<string>, ws: seq<Widget>): seq<Widget> {
    Sort(ByRow(registry), Visible(ws))
  }

  lemma InOrderIs(registry: seq<string>, ws: seq<Widget>)
    requires DistinctIds(ws)
    ensures var q := InOrder(registry, ws);
      Sorted(ByRow(registry), q) && DistinctIds(q) && forall v :: v in q <==> v in ws && !v.hidden
  {
    VisibleDistinct(ws);
    VisibleIn(ws);
    ByRowIsAnOrder(registry);
    SortSorts(ByRow(registry), Visible(ws));
    SortPermutes(ByRow(registry), Visible(ws));
    SameMultisetSameElements(InOrder(registry, ws), Visible(ws));
    PermutedStaysDistinct(IdOf, Visible(ws), InOrder(registry, ws));
  }

  lemma PlacedIs(registry: seq<string>, ws: seq<Widget>)
    requires AllShaped(ws) && DistinctIds(ws)
    ensures AllShaped(InOrder(registry, ws)) && Placed(registry, ws) == Stack(InOrder(registry, ws), [])
  {
    InOrderIs(registry, ws);
  }

  lemma StackedMoves(q: seq<Widget>)
    requires AllShaped(q) && DistinctIds(q)
    ensures Moved(q, Stack(q, [])) && DistinctIds(Stack(q, [])) && Settled(Stack(q, []))
  {
    assert [] + q == q;
    StackMoves(q, []);
    StackSettles(q, []);
    MovedStaysDistinct(q, Stack(q, []));
  }

  lemma MovedStaysDistinct(before: seq<Widget>, after: seq<Widget>)
    requires Moved(before, after) && DistinctIds(before)
    ensures DistinctIds(after)
  {
  }

  lemma PlacedMoves(registry: seq<string>, ws: seq<Widget>)
    requires AllShaped(ws) && DistinctIds(ws)
    ensures Moved(InOrder(registry, ws), Placed(registry, ws))
    ensures DistinctIds(Placed(registry, ws)) && Settled(Placed(registry, ws))
  {
    PlacedIs(registry, ws);
    InOrderIs(registry, ws);
    StackedMoves(InOrder(registry, ws));
  }

  lemma {:induction false} StackIsGreedy(rest: seq<Widget>, placed: seq<Widget>, i: nat)
    requires AllShaped(rest) && i < |rest|
    ensures |Stack(rest, placed)| == |placed| + |rest| && Stack(rest, placed)[..|placed|] == placed
    ensures Stack(rest, placed)[|placed| + i] == Land(rest[i], Stack(rest, placed)[..|placed| + i])
    decreases |rest|
  {
    var next := placed + [Land(rest[0], placed)];
    StackMoves(rest[1..], next);
    if |rest| > 1 { StackIsGreedy(rest[1..], next, if i == 0 then 0 else i - 1); }
    var r := Stack(rest, placed);
    assert r[..|next|] == next && next[..|placed|] == placed;
    assert r[..|placed|] == r[..|next|][..|placed|];
  }

  /** Widgets are placed by row, then column, then place in the registry, and each lands on the
      first row that is free of those placed before it. */
  lemma EachLandsOnTheFirstFreeRow(registry: seq<string>, ws: seq<Widget>, i: nat, j: nat)
    requires AllShaped(ws) && DistinctIds(ws) && i <= j < |InOrder(registry, ws)|
    ensures var q, p := InOrder(registry, ws), Placed(registry, ws);
      && |p| == |q| && Shaped(q[i]) && p[i] == Land(q[i], p[..i])
      && (|| q[i].y < q[j].y
          || (q[i].y == q[j].y && q[i].x < q[j].x)
          || (q[i].y == q[j].y && q[i].x == q[j].x && Rank(registry, q[i].id) <= Rank(registry, q[j].id)))
  {
    var q := InOrder(registry, ws);
    PlacedIs(registry, ws);
    InOrderIs(registry, ws);
    assert q[i] in q;
    StackIsGreedy(q, [], i);
    assert i < j ==> ByRow(registry)(q[i], q[j]);
  }

  /** A visible widget is replaced by its placed copy, a hidden one stays. */
  lemma PackAt(registry: seq<string>, ws: seq<Widget>, i: nat)
    requires AllShaped(ws) && DistinctIds(ws) && i < |ws|
    ensures var r := Pack(registry, ws)[i];
      r == ws[i].(y := r.y) && (if ws[i].hidden then r == ws[i] else r in Placed(registry, ws))
  {
    var q, p := InOrder(registry, ws), Placed(registry, ws);
    InOrderIs(registry, ws);
    PlacedMoves(registry, ws);
    if ws[i].hidden {
      forall o | o in p ensures o.id != ws[i].id {
        var k :| 0 <= k < |p| && p[k] == o;
        assert q[k] in ws && p[k].id == q[k].id;
      }
      ReplaceMisses(ws[i], p);
    } else {
      assert ws[i] in q;
      var k :| 0 <= k < |q| && q[k] == ws[i];
      ReplaceFinds(ws[i], p, k);
    }
  }

  /** Packing keeps every widget, in the same order, with its column, size and visibility;
      a hidden widget is not touched at all. */
  lemma PackOnlyMovesRows(registry: seq<string>, ws: seq<Widget>)
    requires AllShaped(ws) && DistinctIds(ws)
    ensures Moved(ws, Pack(registry, ws))
    ensures forall i :: 0 <= i < |ws| && ws[i].hidden ==> Pack(registry, ws)[i] == ws[i]
    ensures DistinctIds(Pack(registry, ws)) && AllShaped(Pack(registry, ws))
  {
    var r := Pack(registry, ws);
    forall i | 0 <= i < |ws| ensures r[i] == ws[i].(y := r[i].y) && (ws[i].hidden ==> r[i] == ws[i]) && Shaped(r[i]) {
      PackAt(registry, ws, i);
      PlacedMoves(registry, ws);
    }
  }

  lemma VisibleOfPack(registry: seq<string>, ws: seq<Widget>)
    requires AllShaped(ws) && DistinctIds(ws)
    ensures SameElements(Placed(registry, ws), Visible(Pack(registry, ws)))
  {
    var q, p, r := InOrder(registry, ws), Placed(registry, ws), Pack(registry, ws);
    InOrderIs(registry, ws);
    VisibleIn(r);
    PlacedMoves(registry, ws);
    forall o | o in p ensures o in Visible(r) {
      var k :| 0 <= k < |p| && p[k] == o;
      assert q[k] in ws;
      var i :| 0 <= i < |ws| && ws[i] == q[k];
      ReplaceFinds(ws[i], p, k);
      assert r[i] == o;
    }
    forall o | o in Visible(r) ensures o in p {
      var i :| 0 <= i < |r| && r[i] == o;
      PackAt(registry, ws, i);
    }
  }

  /** After packing no two visible widgets overlap and none could move up. */
  lemma PackSettles(registry: seq<string>, ws: seq<Widget>)
    requires AllShaped(ws) && DistinctIds(ws)
    ensures Settled(Visible(Pack(registry, ws)))
  {
    PlacedMoves(registry, ws);
    VisibleOfPack(registry, ws);
    SettledOnElements(Placed(registry, ws), Visible(Pack(registry, ws)));
  }

  lemma PackKeepsSettled(registry: seq<string>, ws: seq<Widget>)
    requires AllShaped(ws) && DistinctIds(ws) && Settled(Visible(ws))
    ensures Pack(registry, ws) == ws
  {
    var q := InOrder(registry, ws);
    VisibleIn(ws);
    InOrderIs(registry, ws);
    SettledOnElements(Visible(ws), q);
    assert [] + q == q;
    StackStays(registry, q, []);
    forall i | 0 <= i < |ws| ensures Pack(registry, ws)[i] == ws[i] {
      PackAt(registry, ws, i);
      if !ws[i].hidden {
        var k :| 0 <= k < |q| && q[k] == ws[i];
        ReplaceFinds(ws[i], q, k);
      }
    }
  }

  /** The layouts that packing leaves alone are exactly the settled ones. */
  lemma PackFixesExactlySettled(registry: seq<string>, ws: seq<Widget>)
    requires AllShaped(ws) && DistinctIds(ws)
    ensures Pack(registry, ws) == ws <==> Settled(Visible(ws))
  {
    PackSettles(registry, ws);
    if Settled(Visible(ws)) { PackKeepsSettled(registry, ws); }
  }

  lemma PackIsIdempotent(registry: seq<string>, ws: seq<Widget>)
    requires AllShaped(ws) && DistinctIds(ws)
    ensures AllShaped(Pack(registry, ws)) && Pack(registry, Pack(registry, ws)) == Pack(registry, ws)
  {
    PackOnlyMovesRows(registry, ws);
    PackSettles(registry, ws);
    PackKeepsSettled(registry, Pack(registry, ws));
  }

  // How far down a packed layout reaches.

  function Heights(ws: seq<Widget>): int { if ws == [] then 0 else ws[0].h + Heights(ws[1..]) }

  lemma {:induction false} InsertHeights(leq: (Widget, Widget) -> bool, v: Widget, s: seq<Widget>)
    ensures Heights(Insert(leq, v, s)) == v.h + Heights(s)
    decreases |s|
  {
    if s != [] && !leq(v, s[0]) { InsertHeights(leq, v, s[1..]); }
  }

  lemma {:induction false} SortHeights(leq: (Widget, Widget) -> bool, s: seq<Widget>)
    ensures Heights(Sort(leq, s)) == Heights(s)
    decreases |s|
  {
    if s != [] {
      SortHeights(leq, s[1..]);
      InsertHeights(leq, s[0], Sort(leq, s[1..]));
    }
  }

  ghost predicate EndsBy(ws: seq<Widget>, row: int) { forall v :: v in ws ==> v.y + v.h <= row }

  lemma {:induction false} BottomBy(placed: seq<Widget>, row: nat)
    requires EndsBy(placed, row)
    ensures Bottom(placed) <= row
    decreases |placed|
  {
    if placed != [] { BottomBy(placed[1..], row); }
  }

  lemma LandsByBottom(v: Widget, placed: seq<Widget>)
    requires Shaped(v)
    ensures Land(v, placed).y <= Bottom(placed)
  {
    AboveBottom(placed);
    assert Fits(v, Bottom(placed), placed);
  }

  lemma {:induction false} StackEndsBy(rest: seq<Widget>, placed: seq<Widget>, row: nat)
    requires AllShaped(rest) && EndsBy(placed, row)
    ensures EndsBy(Stack(rest, placed), row + Heights(rest))
    decreases |rest|
  {
    if rest != [] {
      LandsByBottom(rest[0], placed);
      BottomBy(placed, row);
      StackEndsBy(rest[1..], placed + [Land(rest[0], placed)], row + rest[0].h);
    } else {
      assert Heights(rest) == 0;
    }
  }

  /** No visible widget ends below the sum of the visible heights. */
  lemma PackEndsByHeights(registry: seq<string>, ws: seq<Widget>)
    requires AllShaped(ws) && DistinctIds(ws)
    ensures EndsBy(Visible(Pack(registry, ws)), Heights(Visible(ws)))
  {
    var q := InOrder(registry, ws);
    VisibleOfPack(registry, ws);
    InOrderIs(registry, ws);
    SortHeights(ByRow(registry), Visible(ws));
    StackEndsBy(q, [], 0);
  }
}
