/** Saving and loading dashboard layouts: validation of a submitted layout, optimistic
    revisions, and the promise that a saved layout is loaded exactly as it was returned. */
module LayoutService {
  import opened Telemetry
  import opened LayoutPacking
  import opened LayoutTheorems
  import opened LayoutMerge
  import opened LayoutRegistry
  import opened LayoutRoundTrip

  const CURRENT_VERSION := 2
  const DASHBOARD_KEY := "overview"

  datatype Problem = UnknownDashboard | UnsupportedVersion | StoredVersionUnsupported | NoWidgets
    | DuplicateId(id: string) | UnknownId(id: string) | BadSize(id: string) | TooWide(id: string)
    | TooTall(id: string) | NotHideable(id: string) | Overlap(id: string) | RevisionConflict

  datatype View = View(version: int, revision: int, isDefault: bool, widgets: seq<Widget>)

  datatype Reply = Shown(view: View) | Refused(problem: Problem)

  /** A row of `user_dashboard_layouts`. `layout` is `None` when the stored value is no list. */
  datatype Row = Row(version: int, revision: nat, layout: Option<seq<Raw>>)

  function SpecsOf(version: int): (r: Option<seq<Spec>>)
    ensures r.Some? <==> version == 1 || version == 2
    ensures r.Some? ==> Registry(r.value)
  {
    if version == 1 then (V1IsARegistry(); Some(V1))
    else if version == 2 then (V2IsARegistry(); Some(V2))
    else None
  }

  // Validation.

  /** What request parsing already guarantees of a submitted widget. */
  predicate Parsed(v: Widget) { v.x >= 0 && v.y >= 0 && 1 <= v.w <= 12 && 1 <= v.h <= 24 }

  predicate AllParsed(ws: seq<Widget>) { forall v :: v in ws ==> Parsed(v) }

  function WidgetProblem(specs: seq<Spec>, v: Widget, seen: set<string>): Option<Problem> {
    if v.id in seen then Some(DuplicateId(v.id))
    else var found := Find(specs, v.id);
      if found.None? then Some(UnknownId(v.id))
      else var spec := found.value;
        if v.w < spec.minW || v.w > spec.maxW || v.h < spec.minH || v.h > spec.maxH then Some(BadSize(v.id))
        else if v.x + v.w > COLUMNS then Some(TooWide(v.id))
        else if v.y + v.h > MAX_ROWS then Some(TooTall(v.id))
        else if v.hidden && !spec.hideable then Some(NotHideable(v.id))
        else None
  }

  function FirstWidgetProblem(specs: seq<Spec>, ws: seq<Widget>, seen: set<string>): Option<Problem>
    decreases |ws|
  {
    if ws == [] then None
    else if WidgetProblem(specs, ws[0], seen).Some? then WidgetProblem(specs, ws[0], seen)
    else FirstWidgetProblem(specs, ws[1..], seen + {ws[0].id})
  }

  predicate OverlapsEarlier(visible: seq<Widget>, i: nat)
    requires i < |visible|
  {
    exists o :: o in visible[..i] && Collides(visible[i], o)
  }

  function FirstOverlap(visible: seq<Widget>, i: nat): Option<Problem>
    decreases |visible| - i
  {
    if i >= |visible| then None
    else if OverlapsEarlier(visible, i) then Some(Overlap(visible[i].id))
    else FirstOverlap(visible, i + 1)
  }

  function Problems(specs: seq<Spec>, ws: seq<Widget>): Option<Problem> {
    if ws == [] then Some(NoWidgets)
    else if FirstWidgetProblem(specs, ws, {}).Some? then FirstWidgetProblem(specs, ws, {})
    else FirstOverlap(Visible(ws), 0)
  }

  method Validate(specs: seq<Spec>, ws: seq<Widget>) returns (r: Option<Problem>)
    ensures r == Problems(specs, ws)
  {
    if ws == [] { return Some(NoWidgets); }
    var seen: set<string> := {};
    for i := 0 to |ws|
      invariant FirstWidgetProblem(specs, ws, {}) == FirstWidgetProblem(specs, ws[i..], seen)
    {
      assert ws[i..][0] == ws[i] && ws[i..][1..] == ws[i + 1..];
      var problem := WidgetProblem(specs, ws[i], seen);
      if problem.Some? { return problem; }
      seen := seen + {ws[i].id};
    }
    var visible := Visible(ws);
    for i := 0 to |visible|
      invariant FirstOverlap(visible, 0) == FirstOverlap(visible, i)
    {
      if OverlapsEarlier(visible, i) { return Some(Overlap(visible[i].id)); }
    }
    return None;
  }

  /** A layout that may be saved: known widgets, each once, inside its limits and the grid,
      and no two visible ones overlap. */
  ghost predicate Acceptable(specs: seq<Spec>, ws: seq<Widget>) {
    ws != [] && DistinctIds(ws) && AllSized(specs, ws) && AllInGrid(ws) && NoOverlap(Visible(ws))
  }

  lemma {:induction false} NoWidgetProblem(specs: seq<Spec>, ws: seq<Widget>, seen: set<string>)
    requires AllParsed(ws)
    ensures FirstWidgetProblem(specs, ws, seen).None? <==> Readable(specs, ws, seen) && AllInGrid(ws)
    decreases |ws|
  {
    if ws != [] {
      var v := ws[0];
      assert v in ws && ws == [v] + ws[1..];
      FindIn(specs, v.id);
      NoWidgetProblem(specs, ws[1..], seen + {v.id});
      if WidgetProblem(specs, v, seen).None? {
        if Readable(specs, ws, seen) { ReadableTail(specs, ws, seen); }
        if Readable(specs, ws[1..], seen + {v.id}) { ReadableCons(specs, ws, seen); }
      }
    }
  }

  lemma ReadableCons(specs: seq<Spec>, ws: seq<Widget>, seen: set<string>)
    requires ws != [] && Readable(specs, ws[1..], seen + {ws[0].id})
    requires ws[0].id !in seen && Find(specs, ws[0].id).Some? && Sized(Find(specs, ws[0].id).value, ws[0])
    ensures Readable(specs, ws, seen)
  {
  }

  lemma {:induction false} NoFirstOverlap(visible: seq<Widget>, i: nat)
    requires i <= |visible|
    ensures FirstOverlap(visible, i).None? <==> forall k :: i <= k < |visible| ==> !OverlapsEarlier(visible, k)
    decreases |visible| - i
  {
    if i < |visible| { NoFirstOverlap(visible, i + 1); }
  }

  lemma NoOverlapByIndex(visible: seq<Widget>)
    requires DistinctIds(visible)
    ensures NoOverlap(visible) <==> forall k :: 0 <= k < |visible| ==> !OverlapsEarlier(visible, k)
  {
    if forall k :: 0 <= k < |visible| ==> !OverlapsEarlier(visible, k) {
      forall a, b | a in visible && b in visible && a.id != b.id ensures !Collides(a, b) {
        var i :| 0 <= i < |visible| && visible[i] == a;
        var j :| 0 <= j < |visible| && visible[j] == b;
        if i < j { assert a in visible[..j] && !OverlapsEarlier(visible, j); }
        if j < i { assert b in visible[..i] && !OverlapsEarlier(visible, i); }
      }
    }
    if NoOverlap(visible) {
      forall k | 0 <= k < |visible| ensures !OverlapsEarlier(visible, k) {
        forall o | o in visible[..k] ensures !Collides(visible[k], o) {
          var j :| 0 <= j < k && visible[j] == o;
          assert visible[k] in visible && o in visible;
        }
      }
    }
  }

  /** Validation accepts exactly the acceptable layouts. */
  lemma ValidationIsExact(specs: seq<Spec>, ws: seq<Widget>)
    requires AllParsed(ws)
    ensures Problems(specs, ws).None? <==> Acceptable(specs, ws)
  {
    NoWidgetProblem(specs, ws, {});
    NoFirstOverlap(Visible(ws), 0);
    if DistinctIds(ws) {
      VisibleDistinct(ws);
      NoOverlapByIndex(Visible(ws));
    }
  }

  // The service.

  function GetView(rows: map<int, Row>, user: int, key: string): Reply {
    if key != DASHBOARD_KEY then Refused(UnknownDashboard)
    else if user !in rows then Shown(View(CURRENT_VERSION, 0, true, Defaults(V2)))
    else var row := rows[user];
      if SpecsOf(row.version).None? then Refused(StoredVersionUnsupported)
      else var (widgets, usable) := Merge(SpecsOf(row.version).value, row.layout);
        Shown(View(row.version, row.revision, !usable, widgets))
  }

  /** The upsert: `None` when the expected revision is not the stored one. */
  function NextRevision(rows: map<int, Row>, user: int, expected: nat): Option<nat> {
    if user in rows then (if rows[user].revision == expected then Some(expected + 1) else None)
    else if expected == 0 then Some(1) else None
  }

  function PutReply(rows: map<int, Row>, user: int, key: string, version: int, expected: nat, ws: seq<Widget>): Reply {
    if key != DASHBOARD_KEY then Refused(UnknownDashboard)
    else if SpecsOf(version).None? then Refused(UnsupportedVersion)
    else var specs := SpecsOf(version).value;
      if Problems(specs, ws).Some? then Refused(Problems(specs, ws).value)
      else if NextRevision(rows, user, expected).None? then Refused(RevisionConflict)
      else Shown(View(version, NextRevision(rows, user, expected).value, false, Merge(specs, Some(DumpAll(ws))).0))
  }

  function PutRows(rows: map<int, Row>, user: int, reply: Reply): map<int, Row>
    requires reply.Shown? ==> reply.view.revision >= 0
  {
    if reply.Refused? then rows
    else rows[user := Row(reply.view.version, reply.view.revision, Some(DumpAll(reply.view.widgets)))]
  }

  class DashboardLayoutService {
    /** The stored rows of the overview dashboard, by user. */
    var rows: map<int, Row>

    constructor ()
      ensures rows == map[]
    {
      rows := map[];
    }

    method Get(user: int, key: string) returns (reply: Reply)
      ensures reply == GetView(rows, user, key)
    {
      if key != DASHBOARD_KEY { return Refused(UnknownDashboard); }
      if user !in rows { return Shown(View(CURRENT_VERSION, 0, true, Defaults(V2))); }
      var row := rows[user];
      var specs := SpecsOf(row.version);
      if specs.None? { return Refused(StoredVersionUnsupported); }
      var widgets, usable := MergeStored(specs.value, row.layout);
      return Shown(View(row.version, row.revision, !usable, widgets));
    }

    method Put(user: int, key: string, version: int, expected: nat, ws: seq<Widget>) returns (reply: Reply)
      requires AllParsed(ws)
      modifies this
      ensures reply == PutReply(old(rows), user, key, version, expected, ws)
      ensures rows == PutRows(old(rows), user, reply)
    {
      if key != DASHBOARD_KEY { return Refused(UnknownDashboard); }
      var specs := SpecsOf(version);
      if specs.None? { return Refused(UnsupportedVersion); }
      var problem := Validate(specs.value, ws);
      if problem.Some? { return Refused(problem.value); }
      var widgets, usable := MergeStored(specs.value, Some(DumpAll(ws)));
      var revision := NextRevision(rows, user, expected);
      if revision.None? { return Refused(RevisionConflict); }
      rows := rows[user := Row(version, revision.value, Some(DumpAll(widgets)))];
      return Shown(View(version, revision.value, false, widgets));
    }

    method Delete(user: int, key: string) returns (reply: Reply)
      modifies this
      ensures key != DASHBOARD_KEY ==> reply == Refused(UnknownDashboard) && rows == old(rows)
      ensures key == DASHBOARD_KEY ==> rows == old(rows) - {user} && reply == GetView(rows, user, key)
    {
      if key != DASHBOARD_KEY { return Refused(UnknownDashboard); }
      rows := rows - {user};
      return Shown(View(CURRENT_VERSION, 0, true, Defaults(V2)));
    }
  }

  // What saving guarantees.

  lemma DumpIsTaken(specs: seq<Spec>, ws: seq<Widget>)
    requires Registry(specs) && Acceptable(specs, ws)
    ensures Accept(specs, DumpAll(ws), {}) == ws && Merge(specs, Some(DumpAll(ws))).1
  {
    AcceptDumped(specs, ws, {});
    ClippedAt(ws);
    forall i | 0 <= i < |ws| ensures Clipped(ws[i]) == ws[i] { assert ws[i] in ws && InGrid(ws[i]); }
  }

  /** Saving keeps every submitted widget, in order, with its column, size and visibility;
      behind them come the widgets the client did not know; the visible ones are settled. */
  lemma PutKeepsWhatWasSubmitted(specs: seq<Spec>, ws: seq<Widget>)
    requires Registry(specs) && Acceptable(specs, ws)
    ensures var r := Merge(specs, Some(DumpAll(ws))).0;
      |ws| <= |r| && Moved(ws, r[..|ws|]) && Complete(specs, r) && DistinctIds(r) && AllSized(specs, r)
      && AllInGrid(r) && Settled(Visible(r))
  {
    DumpIsTaken(specs, ws);
    MergeIsWellFormed(specs, Some(DumpAll(ws)));
    var m := Merged(specs, DumpAll(ws));
    MergedIsSized(specs, DumpAll(ws));
    PackOnlyMovesRows(Ids(specs), m);
    assert m[..|ws|] == ws;
    MissingInGrid(specs, SeenIn(ws));
    SameGridAfterMove(m, Pack(Ids(specs), m));
  }

  lemma SavedReadsBack(specs: seq<Spec>, ws: seq<Widget>)
    requires Registry(specs) && Acceptable(specs, ws)
    ensures var r := Merge(specs, Some(DumpAll(ws))).0; Merge(specs, Some(DumpAll(r))) == (r, true)
  {
    PutKeepsWhatWasSubmitted(specs, ws);
    DumpedReadsBack(specs, Merge(specs, Some(DumpAll(ws))).0);
  }

  /** Loading after a successful save shows exactly what the save returned, and other users
      see what they saw before. */
  lemma GetAfterPut(rows: map<int, Row>, user: int, other: int, key: string, version: int, expected: nat,
                    ws: seq<Widget>)
    requires AllParsed(ws) && other != user
    ensures var reply := PutReply(rows, user, key, version, expected, ws);
      && (reply.Shown? ==> GetView(PutRows(rows, user, reply), user, key) == reply)
      && GetView(PutRows(rows, user, reply), other, key) == GetView(rows, other, key)
  {
    var reply := PutReply(rows, user, key, version, expected, ws);
    if reply.Shown? {
      ValidationIsExact(SpecsOf(version).value, ws);
      SavedReadsBack(SpecsOf(version).value, ws);
    }
  }

  /** Of two saves that expect the same revision, of whatever versions, the second is refused and
      changes nothing; the reason is the revision if there is nothing else to object to. */
  lemma SecondPutConflicts(rows: map<int, Row>, user: int, key: string, version: int, version': int, expected: nat,
                           first: seq<Widget>, second: seq<Widget>)
    requires AllParsed(first) && AllParsed(second)
    requires PutReply(rows, user, key, version, expected, first).Shown?
    ensures var reply := PutReply(rows, user, key, version, expected, first);
      var after := PutRows(rows, user, reply);
      var reply' := PutReply(after, user, key, version', expected, second);
      && reply'.Refused?
      && PutRows(after, user, reply') == after
      && (SpecsOf(version').Some? && Acceptable(SpecsOf(version').value, second) ==>
        reply' == Refused(RevisionConflict))
  {
    if SpecsOf(version').Some? { ValidationIsExact(SpecsOf(version').value, second); }
  }

  /** A save returns the submitted layout untouched if and only if it names every widget and
      is settled. */
  lemma PutIsIdentityIff(specs: seq<Spec>, ws: seq<Widget>)
    requires Registry(specs) && Acceptable(specs, ws)
    ensures Merge(specs, Some(DumpAll(ws))).0 == ws <==> Complete(specs, ws) && Settled(Visible(ws))
  {
    PutKeepsWhatWasSubmitted(specs, ws);
    DumpIsTaken(specs, ws);
    if Complete(specs, ws) { DumpedReadsBack(specs, ws); }
  }

  /** The default layout of the current version can be stored and read back unchanged. */
  lemma DefaultsReadBack()
    ensures Registry(V2) && Merge(V2, Some(DumpAll(Defaults(V2)))) == (Defaults(V2), true)
  {
    V2IsARegistry();
    V2DefaultsSettled();
    DefaultsAre(V2);
    var d := Defaults(V2);
    forall v | v in d ensures Find(V2, v.id).Some? && Sized(Find(V2, v.id).value, v) && InGrid(v) {
      var i :| 0 <= i < |d| && d[i] == v;
      FindThat(V2, V2[i]);
      assert GoodSpec(V2[i]);
    }
    forall s | s in V2 ensures exists v :: v in d && v.id == s.id {
      var i :| 0 <= i < |V2| && V2[i] == s;
      assert d[i] in d;
    }
    DumpedReadsBack(V2, d);
  }

  /** A stored widget without a column, one wider than its default place: what is read is not
      stable, because the next reading moves the widget back into the grid. */
  lemma ReadingIsNotAlwaysStable()
    ensures var raws := [Dict(Some("kpi-event-failures"), None, None, Some(4), None, false)];
      && Registry(V2) && Merge(V2, Some(raws)).1
      && Merge(V2, Some(DumpAll(Merge(V2, Some(raws)).0))) != (Merge(V2, Some(raws)).0, true)
  {
    V2IsARegistry();
    var raw := Dict(Some("kpi-event-failures"), None, None, Some(4), None, false);
    var spec := V2A[4];
    assert spec.id == "kpi-event-failures" && spec in V2A && V2[4] == spec;
    FindThat(V2, spec);
    assert Usable(V2, raw, {});
    assert Taken(V2, [raw], {}, 0) && Overhangs(V2, raw);
    MergeIsStableIff(V2, [raw]);
  }
}
