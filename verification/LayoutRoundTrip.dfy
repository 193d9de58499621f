/** What reading a stored layout guarantees, and when storing what was read and reading it
    again changes nothing. */
module LayoutRoundTrip {
  import opened Basics
  import opened Telemetry
  import opened LayoutPacking
  import opened LayoutTheorems
  import opened LayoutMerge

  /** `model_dump` of a widget, as it is stored. */
  function Dump(v: Widget): Raw { Dict(Some(v.id), Some(v.x), Some(v.y), Some(v.w), Some(v.h), v.hidden) }

  function DumpAll(ws: seq<Widget>): seq<Raw> { if ws == [] then [] else [Dump(ws[0])] + DumpAll(ws[1..]) }

  /** The widget ends inside the grid. */
  predicate InGrid(v: Widget) { v.x + v.w <= COLUMNS }

  ghost predicate AllInGrid(ws: seq<Widget>) { forall v :: v in ws ==> InGrid(v) }

  /** Every widget of the registry is there. */
  ghost predicate Complete(specs: seq<Spec>, ws: seq<Widget>) {
    forall s :: s in specs ==> exists v :: v in ws && v.id == s.id
  }

  // How far down a merged layout reaches.

  function Without(ws: seq<Widget>, id: string): seq<Widget> {
    if ws == [] then [] else (if ws[0].id == id then [] else [ws[0]]) + Without(ws[1..], id)
  }

  lemma {:induction false} WithoutIn(ws: seq<Widget>, id: string)
    requires DistinctIds(ws)
    ensures DistinctIds(Without(ws, id))
    ensures forall v :: v in Without(ws, id) <==> v in ws && v.id != id
    decreases |ws|
  {
    if ws != [] {
      WithoutIn(ws[1..], id);
      assert forall v :: v in ws[1..] ==> v.id != ws[0].id;
    }
  }

  lemma {:induction false} WithoutHeights(ws: seq<Widget>, id: string, most: nat)
    requires DistinctIds(ws) && forall v :: v in ws && v.id == id ==> v.h <= most
    ensures Heights(ws) <= most + Heights(Without(ws, id))
    ensures (forall v :: v in ws ==> v.id != id) ==> Heights(ws) == Heights(Without(ws, id))
    decreases |ws|
  {
    if ws != [] {
      WithoutHeights(ws[1..], id, most);
      assert ws[0] in ws && forall v :: v in ws[1..] ==> v.id != ws[0].id;
      assert [] + Without(ws[1..], id) == Without(ws[1..], id);
    }
  }

  lemma {:induction false} HeightsAreBounded(specs: seq<Spec>, ws: seq<Widget>)
    requires DistinctIds(ws) && AllGood(specs)
    requires forall v :: v in ws ==> Find(specs, v.id).Some? && v.h <= Find(specs, v.id).value.maxH
    ensures Heights(ws) <= MaxHeights(specs)
    decreases |specs|
  {
    if specs == [] {
      assert ws == [];
    } else {
      assert GoodSpec(specs[0]);
      WithoutIn(ws, specs[0].id);
      WithoutHeights(ws, specs[0].id, specs[0].maxH);
      HeightsAreBounded(specs[1..], Without(ws, specs[0].id));
    }
  }

  lemma PackIsSized(specs: seq<Spec>, m: seq<Widget>)
    requires Registry(specs) && AllSized(specs, m) && DistinctIds(m) && AllShaped(m)
    ensures AllSized(specs, Pack(Ids(specs), m))
  {
    var r := Pack(Ids(specs), m);
    PackOnlyMovesRows(Ids(specs), m);
    PackEndsByHeights(Ids(specs), m);
    VisibleIn(m);
    VisibleIn(r);
    VisibleDistinct(m);
    HeightsAreBounded(specs, Visible(m));
    forall v | v in r ensures Find(specs, v.id).Some? && Sized(Find(specs, v.id).value, v) {
      var i :| 0 <= i < |r| && r[i] == v;
      assert m[i] in m && v == m[i].(y := v.y);
    }
  }

  /** Whatever is stored, what is read contains every registered widget exactly once, with
      its size inside its limits and its rows inside the dashboard; the visible ones do not
      overlap and none could move up. */
  lemma MergeIsWellFormed(specs: seq<Spec>, stored: Option<seq<Raw>>)
    requires Registry(specs) && Merge(specs, stored).1
    ensures var r := Merge(specs, stored).0;
      DistinctIds(r) && Complete(specs, r) && AllSized(specs, r) && AllShaped(r) && Settled(Visible(r))
  {
    var m := Merged(specs, stored.value);
    MergedIsSized(specs, stored.value);
    PackOnlyMovesRows(Ids(specs), m);
    PackIsSized(specs, m);
    PackSettles(Ids(specs), m);
    CompleteAfterMove(specs, m, Pack(Ids(specs), m));
  }

  lemma CompleteAfterMove(specs: seq<Spec>, m: seq<Widget>, r: seq<Widget>)
    requires Complete(specs, m) && Moved(m, r)
    ensures Complete(specs, r)
  {
  }

  // Reading back what was dumped.

  /** Coercing a widget again puts it back into the grid and changes nothing else. */
  lemma CoerceAgain(spec: Spec, v: Widget)
    requires GoodSpec(spec) && Sized(spec, v)
    ensures Coerce(spec, Dump(v)) == Clipped(v)
  {
  }

  function Clipped(v: Widget): Widget { v.(x := Least(v.x, COLUMNS - v.w)) }

  lemma {:induction false} AcceptOneDumped(specs: seq<Spec>, raws: seq<Raw>, v: Widget, seen: set<string>)
    requires AllGood(specs) && Find(specs, v.id).Some? && Sized(Find(specs, v.id).value, v) && v.id !in seen
    requires raws != [] && raws[0] == Dump(v)
    ensures Accept(specs, raws, seen) == [Clipped(v)] + Accept(specs, raws[1..], seen + {v.id})
  {
    FindIn(specs, v.id);
    CoerceAgain(Find(specs, v.id).value, v);
  }

  function ClippedAll(ws: seq<Widget>): seq<Widget> {
    if ws == [] then [] else [Clipped(ws[0])] + ClippedAll(ws[1..])
  }

  lemma {:induction false} ClippedAt(ws: seq<Widget>)
    ensures |ClippedAll(ws)| == |ws| && forall i :: 0 <= i < |ws| ==> ClippedAll(ws)[i] == Clipped(ws[i])
    decreases |ws|
  {
    if ws != [] { ClippedAt(ws[1..]); }
  }

  /** The list can be read into `seen` one after the other. */
  ghost predicate Readable(specs: seq<Spec>, ws: seq<Widget>, seen: set<string>) {
    AllSized(specs, ws) && DistinctIds(ws) && forall v :: v in ws ==> v.id !in seen
  }

  lemma ReadableTail(specs: seq<Spec>, ws: seq<Widget>, seen: set<string>)
    requires Readable(specs, ws, seen) && ws != []
    ensures Readable(specs, ws[1..], seen + {ws[0].id})
  {
  }

  lemma {:induction false} AcceptDumped(specs: seq<Spec>, ws: seq<Widget>, seen: set<string>)
    requires AllGood(specs) && Readable(specs, ws, seen)
    ensures Accept(specs, DumpAll(ws), seen) == ClippedAll(ws)
    decreases |ws|
  {
    if ws != [] {
      assert ws[0] in ws;
      assert DumpAll(ws)[1..] == DumpAll(ws[1..]);
      AcceptOneDumped(specs, DumpAll(ws), ws[0], seen);
      ReadableTail(specs, ws, seen);
      AcceptDumped(specs, ws[1..], seen + {ws[0].id});
    }
  }

  lemma {:induction false} NothingMissing(specs: seq<Spec>, seen: set<string>)
    requires forall s :: s in specs ==> s.id in seen
    ensures Missing(specs, seen) == []
    decreases |specs|
  {
    if specs != [] { NothingMissing(specs[1..], seen); }
  }

  /** Reading a dumped complete layout clips it to the grid and packs it. */
  lemma MergeDumped(specs: seq<Spec>, ws: seq<Widget>) returns (a: seq<Widget>)
    requires Registry(specs) && AllSized(specs, ws) && DistinctIds(ws) && Complete(specs, ws)
    ensures |a| == |ws| && AllShaped(a) && DistinctIds(a)
    ensures forall i :: 0 <= i < |ws| ==> a[i] == Clipped(ws[i])
    ensures Merge(specs, Some(DumpAll(ws))) == (Pack(Ids(specs), a), true)
  {
    a := Accept(specs, DumpAll(ws), {});
    AcceptDumped(specs, ws, {});
    ClippedAt(ws);
    forall s | s in specs ensures s.id in SeenIn(a) {
      var v :| v in ws && v.id == s.id;
      var i :| 0 <= i < |ws| && ws[i] == v;
      assert a[i] in a && a[i].id == s.id;
    }
    NothingMissing(specs, SeenIn(a));
    assert specs[0] in specs && a != [];
    assert Merged(specs, DumpAll(ws)) == a;
    MergedIsSized(specs, DumpAll(ws));
  }

  /** A complete settled layout inside the grid reads back unchanged, and only such a one. */
  lemma DumpedReadsBack(specs: seq<Spec>, ws: seq<Widget>)
    requires Registry(specs) && AllSized(specs, ws) && DistinctIds(ws) && Complete(specs, ws)
    ensures Merge(specs, Some(DumpAll(ws))) == (ws, true) <==> AllInGrid(ws) && Settled(Visible(ws))
  {
    SizedIsShaped(specs, ws);
    var a := MergeDumped(specs, ws);
    PackOnlyMovesRows(Ids(specs), a);
    if AllInGrid(ws) {
      assert a == ws by {
        forall i | 0 <= i < |ws| ensures a[i] == ws[i] { assert ws[i] in ws && InGrid(ws[i]); }
      }
      PackFixesExactlySettled(Ids(specs), ws);
    } else {
      var v :| v in ws && !InGrid(v);
      var i :| 0 <= i < |ws| && ws[i] == v;
      assert Pack(Ids(specs), a)[i].x == a[i].x != v.x;
    }
  }

  // When the layout that was read can be stored and read again unchanged.

  /** The stored element is used: the first one that names this known widget. */
  predicate Taken(specs: seq<Spec>, raws: seq<Raw>, seen: set<string>, i: nat)
    requires i < |raws|
  {
    && Usable(specs, raws[i], seen)
    && forall j :: 0 <= j < i ==> !(raws[j].Dict? && raws[j].id == raws[i].id)
  }

  /** No column is stored, and the default column does not leave room for the stored width. */
  predicate Overhangs(specs: seq<Spec>, raw: Raw) {
    && raw.Dict? && raw.id.Some? && Find(specs, raw.id.value).Some? && raw.x.None?
    && var spec := Find(specs, raw.id.value).value; spec.x + WidthOf(spec, raw) > COLUMNS
  }

  ghost predicate TakesOverhang(specs: seq<Spec>, raws: seq<Raw>, seen: set<string>) {
    exists i :: 0 <= i < |raws| && Taken(specs, raws, seen, i) && Overhangs(specs, raws[i])
  }

  lemma CoercedInGrid(specs: seq<Spec>, raw: Raw, seen: set<string>)
    requires AllGood(specs) && Usable(specs, raw, seen)
    ensures InGrid(Coerce(Find(specs, raw.id.value).value, raw)) <==> !Overhangs(specs, raw)
  {
    FindIn(specs, raw.id.value);
    assert GoodSpec(Find(specs, raw.id.value).value);
  }

  lemma {:induction false} TakenShift(specs: seq<Spec>, raws: seq<Raw>, seen: set<string>, i: nat)
    requires 0 < i < |raws|
    ensures var seen' := if Usable(specs, raws[0], seen) then seen + {raws[0].id.value} else seen;
      Taken(specs, raws, seen, i) <==> Taken(specs, raws[1..], seen', i - 1)
  {
    assert raws[1..][i - 1] == raws[i];
    assert forall j :: 0 < j < i ==> raws[1..][j - 1] == raws[j];
    assert forall j :: 0 <= j < i - 1 ==> raws[1..][j] == raws[j + 1];
  }

  lemma {:induction false} TakesShift(specs: seq<Spec>, raws: seq<Raw>, seen: set<string>)
    requires raws != []
    ensures var seen' := if Usable(specs, raws[0], seen) then seen + {raws[0].id.value} else seen;
      TakesOverhang(specs, raws, seen) <==>
      (Usable(specs, raws[0], seen) && Overhangs(specs, raws[0])) || TakesOverhang(specs, raws[1..], seen')
  {
    var seen' := if Usable(specs, raws[0], seen) then seen + {raws[0].id.value} else seen;
    if TakesOverhang(specs, raws, seen) {
      var i :| 0 <= i < |raws| && Taken(specs, raws, seen, i) && Overhangs(specs, raws[i]);
      if i > 0 {
        TakenShift(specs, raws, seen, i);
        assert raws[1..][i - 1] == raws[i];
      }
    }
    if Usable(specs, raws[0], seen) && Overhangs(specs, raws[0]) { assert Taken(specs, raws, seen, 0); }
    if TakesOverhang(specs, raws[1..], seen') {
      var i :| 0 <= i < |raws[1..]| && Taken(specs, raws[1..], seen', i) && Overhangs(specs, raws[1..][i]);
      TakenShift(specs, raws, seen, i + 1);
      assert raws[1..][i] == raws[i + 1];
    }
  }

  lemma {:induction false} AcceptInGrid(specs: seq<Spec>, raws: seq<Raw>, seen: set<string>)
    requires AllGood(specs)
    ensures AllInGrid(Accept(specs, raws, seen)) <==> !TakesOverhang(specs, raws, seen)
    decreases |raws|
  {
    if raws != [] {
      TakesShift(specs, raws, seen);
      if Usable(specs, raws[0], seen) {
        CoercedInGrid(specs, raws[0], seen);
        AcceptInGrid(specs, raws[1..], seen + {raws[0].id.value});
      } else {
        AcceptInGrid(specs, raws[1..], seen);
      }
    }
  }

  lemma MergedInGrid(specs: seq<Spec>, raws: seq<Raw>)
    requires Registry(specs)
    ensures AllInGrid(Merged(specs, raws)) <==> !TakesOverhang(specs, raws, {})
  {
    var accepted := Accept(specs, raws, {});
    AcceptInGrid(specs, raws, {});
    MissingInGrid(specs, SeenIn(accepted));
  }

  lemma {:induction false} MissingInGrid(specs: seq<Spec>, seen: set<string>)
    requires AllGood(specs)
    ensures AllInGrid(Missing(specs, seen))
    decreases |specs|
  {
    if specs != [] {
      assert GoodSpec(specs[0]);
      MissingInGrid(specs[1..], seen);
    }
  }

  /** Storing what was read and reading it again changes nothing if and only if no stored
      element that is used lacks its column while its width overhangs the default column. */
  lemma MergeIsStableIff(specs: seq<Spec>, raws: seq<Raw>)
    requires Registry(specs) && Merge(specs, Some(raws)).1
    ensures var r := Merge(specs, Some(raws)).0;
      Merge(specs, Some(DumpAll(r))) == (r, true) <==> !TakesOverhang(specs, raws, {})
  {
    var m, r := Merged(specs, raws), Merge(specs, Some(raws)).0;
    MergedIsSized(specs, raws);
    PackOnlyMovesRows(Ids(specs), m);
    MergeIsWellFormed(specs, Some(raws));
    MergedInGrid(specs, raws);
    SameGridAfterMove(m, r);
    DumpedReadsBack(specs, r);
  }

  lemma SameGridAfterMove(m: seq<Widget>, r: seq<Widget>)
    requires Moved(m, r)
    ensures AllInGrid(m) <==> AllInGrid(r)
  {
    forall i | 0 <= i < |m| ensures m[i] in m && r[i] in r && (InGrid(m[i]) <==> InGrid(r[i])) { }
  }
}
