/** Reading a stored dashboard layout back: coercing each stored widget to its limits, adding
    the widgets that are missing, and packing the result. */
module LayoutMerge {
  import opened Basics
  import opened Telemetry
  import opened LayoutPacking
  import opened LayoutTheorems

  const COLUMNS := 12
  const MAX_ROWS := 256

  datatype Spec = Spec(id: string, x: int, y: int, w: int, h: int,
                       minW: int, minH: int, maxW: int, maxH: int, hideable: bool)

  /** An element of the stored list. A field is `None` when it is missing or not a number; a
      number stands for its integer part. `hidden` says that the field is exactly true. */
  datatype Raw = NotADict
    | Dict(id: Option<string>, x: Option<int>, y: Option<int>, w: Option<int>, h: Option<int>, hidden: bool)

  function BoundedInt(value: Option<int>, default: int, minimum: int, maximum: int): int {
    if value.None? then default
    else if value.value > maximum then (if maximum > minimum then maximum else minimum)
    else if value.value < minimum then minimum
    else value.value
  }

  function Distance(a: int, b: int): nat { if a < b then b - a else a - b }

  /** A stored number becomes the nearest allowed one, a missing one the default as it is. */
  lemma BoundedIntIsNearest(value: Option<int>, default: int, minimum: int, maximum: int, other: int)
    requires minimum <= other <= maximum
    ensures value.None? ==> BoundedInt(value, default, minimum, maximum) == default
    ensures value.Some? ==> minimum <= BoundedInt(value, default, minimum, maximum) <= maximum
    ensures value.Some? ==>
      Distance(value.value, BoundedInt(value, default, minimum, maximum)) <= Distance(value.value, other)
  {
  }

  function WidthOf(spec: Spec, raw: Raw): int
    requires raw.Dict?
  {
    BoundedInt(raw.w, spec.w, spec.minW, Least(spec.maxW, COLUMNS))
  }

  function Coerce(spec: Spec, raw: Raw): Widget
    requires raw.Dict?
  {
    var w := WidthOf(spec, raw);
    var h := BoundedInt(raw.h, spec.h, spec.minH, spec.maxH);
    Widget(spec.id, BoundedInt(raw.x, spec.x, 0, COLUMNS - w), BoundedInt(raw.y, spec.y, 0, MAX_ROWS - h), w, h,
           spec.hideable && raw.hidden)
  }

  function Default(spec: Spec): Widget { Widget(spec.id, spec.x, spec.y, spec.w, spec.h, false) }

  function Defaults(specs: seq<Spec>): seq<Widget> {
    if specs == [] then [] else [Default(specs[0])] + Defaults(specs[1..])
  }

  function Ids(specs: seq<Spec>): seq<string> { if specs == [] then [] else [specs[0].id] + Ids(specs[1..]) }

  function Find(specs: seq<Spec>, id: string): Option<Spec> {
    if specs == [] then None else if specs[0].id == id then Some(specs[0]) else Find(specs[1..], id)
  }

  /** The stored element is used: a known widget that has not been seen yet. */
  predicate Usable(specs: seq<Spec>, raw: Raw, seen: set<string>) {
    raw.Dict? && raw.id.Some? && raw.id.value !in seen && Find(specs, raw.id.value).Some?
  }

  function Accept(specs: seq<Spec>, raws: seq<Raw>, seen: set<string>): seq<Widget>
    decreases |raws|
  {
    if raws == [] then []
    else if Usable(specs, raws[0], seen) then
      [Coerce(Find(specs, raws[0].id.value).value, raws[0])] + Accept(specs, raws[1..], seen + {raws[0].id.value})
    else Accept(specs, raws[1..], seen)
  }

  function SeenIn(ws: seq<Widget>): set<string> { set v | v in ws :: v.id }

  function Missing(specs: seq<Spec>, seen: set<string>): seq<Widget> {
    if specs == [] then []
    else (if specs[0].id in seen then [] else [Default(specs[0])]) + Missing(specs[1..], seen)
  }

  function Merged(specs: seq<Spec>, raws: seq<Raw>): seq<Widget> {
    var accepted := Accept(specs, raws, {});
    accepted + Missing(specs, SeenIn(accepted))
  }

  // What a widget registry has to be.

  predicate GoodSpec(s: Spec) {
    && 1 <= s.minW <= s.w <= s.maxW <= COLUMNS && 1 <= s.minH <= s.h <= s.maxH
    && 0 <= s.x <= COLUMNS - s.w && 0 <= s.y <= MAX_ROWS - s.maxH
  }

  function MaxHeights(specs: seq<Spec>): int { if specs == [] then 0 else specs[0].maxH + MaxHeights(specs[1..]) }

  predicate DistinctSpecs(specs: seq<Spec>) {
    specs == [] || (Find(specs[1..], specs[0].id).None? && DistinctSpecs(specs[1..]))
  }

  predicate AllGood(specs: seq<Spec>) { forall s :: s in specs ==> GoodSpec(s) }

  predicate Registry(specs: seq<Spec>) {
    specs != [] && AllGood(specs) && DistinctSpecs(specs) && MaxHeights(specs) <= MAX_ROWS
  }

  /** Size and column limits; rows are the business of packing. */
  predicate Sized(spec: Spec, v: Widget) {
    && v.id == spec.id && spec.minW <= v.w <= spec.maxW && spec.minH <= v.h <= spec.maxH && v.x >= 0
    && 0 <= v.y <= MAX_ROWS - v.h && (v.hidden ==> spec.hideable)
  }

  ghost predicate AllSized(specs: seq<Spec>, ws: seq<Widget>) {
    forall v :: v in ws ==> Find(specs, v.id).Some? && Sized(Find(specs, v.id).value, v)
  }

  lemma {:induction false} FindIn(specs: seq<Spec>, id: string)
    ensures Find(specs, id).Some? ==> Find(specs, id).value in specs && Find(specs, id).value.id == id
    ensures Find(specs, id).Some? <==> exists s :: s in specs && s.id == id
    decreases |specs|
  {
    if specs != [] { FindIn(specs[1..], id); }
  }

  lemma {:induction false} FindThat(specs: seq<Spec>, s: Spec)
    requires DistinctSpecs(specs) && s in specs
    ensures Find(specs, s.id) == Some(s)
    decreases |specs|
  {
    if specs[0] != s {
      FindThat(specs[1..], s);
    }
  }

  lemma {:induction false} AcceptIsSized(specs: seq<Spec>, raws: seq<Raw>, seen: set<string>)
    requires AllGood(specs)
    ensures AllSized(specs, Accept(specs, raws, seen))
    ensures forall v :: v in Accept(specs, raws, seen) ==> v.id !in seen
    ensures DistinctIds(Accept(specs, raws, seen))
    decreases |raws|
  {
    if raws != [] {
      if Usable(specs, raws[0], seen) {
        FindIn(specs, raws[0].id.value);
        AcceptIsSized(specs, raws[1..], seen + {raws[0].id.value});
      } else {
        AcceptIsSized(specs, raws[1..], seen);
      }
    }
  }

  lemma {:induction false} MissingIsSized(all: seq<Spec>, specs: seq<Spec>, seen: set<string>)
    requires AllGood(all) && DistinctSpecs(all) && DistinctSpecs(specs) && forall s :: s in specs ==> s in all
    ensures var m := Missing(specs, seen); AllSized(all, m) && DistinctIds(m)
    ensures forall v :: v in Missing(specs, seen) ==> v.id !in seen && Find(specs, v.id).Some?
    decreases |specs|
  {
    if specs != [] {
      MissingIsSized(all, specs[1..], seen);
      FindThat(all, specs[0]);
      FindIn(specs[1..], specs[0].id);
    }
  }

  lemma {:induction false} MissingHas(specs: seq<Spec>, seen: set<string>, s: Spec)
    requires s in specs && s.id !in seen
    ensures Default(s) in Missing(specs, seen)
    decreases |specs|
  {
    if specs[0] != s { MissingHas(specs[1..], seen, s); }
  }

  lemma MergedIsSized(specs: seq<Spec>, raws: seq<Raw>)
    requires Registry(specs)
    ensures var m := Merged(specs, raws); AllSized(specs, m) && DistinctIds(m) && AllShaped(m)
    ensures forall s :: s in specs ==> exists v :: v in Merged(specs, raws) && v.id == s.id
  {
    var accepted := Accept(specs, raws, {});
    AcceptIsSized(specs, raws, {});
    MissingIsSized(specs, specs, SeenIn(accepted));
    var missing := Missing(specs, SeenIn(accepted));
    assert forall i, j :: 0 <= i < |accepted| && 0 <= j < |missing| ==> accepted[i].id != missing[j].id;
    SizedIsShaped(specs, accepted + missing);
    forall s | s in specs ensures exists v :: v in accepted + missing && v.id == s.id {
      if s.id in SeenIn(accepted) {
        var v :| v in accepted && v.id == s.id;
        assert v in accepted + missing;
      } else {
        MissingHas(specs, SeenIn(accepted), s);
        assert Default(s) in accepted + missing;
      }
    }
  }

  lemma SizedIsShaped(specs: seq<Spec>, ws: seq<Widget>)
    requires AllGood(specs) && AllSized(specs, ws)
    ensures AllShaped(ws)
  {
    forall v | v in ws ensures Shaped(v) { FindIn(specs, v.id); }
  }

  lemma {:induction false} DefaultsAre(specs: seq<Spec>)
    ensures |Defaults(specs)| == |specs| && forall i :: 0 <= i < |specs| ==> Defaults(specs)[i] == Default(specs[i])
    decreases |specs|
  {
    if specs != [] { DefaultsAre(specs[1..]); }
  }

  // The whole operation.

  /** The layout to show, and whether it comes from what was stored. */
  function Merge(specs: seq<Spec>, stored: Option<seq<Raw>>): (seq<Widget>, bool)
    requires Registry(specs)
  {
    if stored.None? || Accept(specs, stored.value, {}) == [] then (Defaults(specs), false)
    else (MergedIsSized(specs, stored.value); (Pack(Ids(specs), Merged(specs, stored.value)), true))
  }

  method AcceptStored(specs: seq<Spec>, raws: seq<Raw>) returns (merged: seq<Widget>, seen: set<string>)
    ensures merged == Accept(specs, raws, {}) && seen == SeenIn(merged)
  {
    merged, seen := [], {};
    for i := 0 to |raws|
      invariant Accept(specs, raws, {}) == merged + Accept(specs, raws[i..], seen)
      invariant seen == SeenIn(merged)
    {
      assert raws[i..][1..] == raws[i + 1..] && raws[i..][0] == raws[i];
      if Usable(specs, raws[i], seen) {
        FindIn(specs, raws[i].id.value);
        seen := seen + {raws[i].id.value};
        merged := merged + [Coerce(Find(specs, raws[i].id.value).value, raws[i])];
      }
    }
  }

  method AddMissing(specs: seq<Spec>, accepted: seq<Widget>, seen: set<string>) returns (merged: seq<Widget>)
    ensures merged == accepted + Missing(specs, seen)
  {
    merged := accepted;
    for i := 0 to |specs|
      invariant accepted + Missing(specs, seen) == merged + Missing(specs[i..], seen)
    {
      assert specs[i..][1..] == specs[i + 1..] && specs[i..][0] == specs[i];
      if specs[i].id !in seen { merged := merged + [Default(specs[i])]; }
    }
  }

  method MergeStored(specs: seq<Spec>, stored: Option<seq<Raw>>) returns (widgets: seq<Widget>, usable: bool)
    requires Registry(specs)
    ensures (widgets, usable) == Merge(specs, stored)
  {
    if stored.None? { return Defaults(specs), false; }
    var accepted, seen := AcceptStored(specs, stored.value);
    var merged := AddMissing(specs, accepted, seen);
    if accepted == [] { return Defaults(specs), false; }
    MergedIsSized(specs, stored.value);
    assert merged == Merged(specs, stored.value);
    widgets := PackWidgets(Ids(specs), merged);
    usable := true;
  }
}
