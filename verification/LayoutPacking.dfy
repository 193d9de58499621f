/** `_pack_widgets`: visible widgets, taken in the order of their rows, each fall to the first
    row where they fit above everything placed so far. */
module LayoutPacking {
  import opened Sorting

  datatype Widget = Widget(id: string, x: int, y: int, w: int, h: int, hidden: bool)

  predicate Shaped(v: Widget) { v.w >= 1 && v.h >= 1 && v.y >= 0 }

  predicate Collides(a: Widget, b: Widget) {
    !(a.x + a.w <= b.x || b.x + b.w <= a.x || a.y + a.h <= b.y || b.y + b.h <= a.y)
  }

  predicate DistinctIds(ws: seq<Widget>) {
    forall i, j :: 0 <= i < j < |ws| ==> ws[i].id != ws[j].id
  }

  predicate AllShaped(ws: seq<Widget>) { forall v :: v in ws ==> Shaped(v) }

  function Visible(ws: seq<Widget>): seq<Widget> {
    if ws == [] then [] else (if ws[0].hidden then [] else [ws[0]]) + Visible(ws[1..])
  }

  // Placing.

  predicate Fits(v: Widget, y: int, placed: seq<Widget>) {
    forall o :: o in placed ==> !Collides(v.(y := y), o)
  }

  /** The row under everything placed. */
  function Bottom(placed: seq<Widget>): nat {
    if placed == [] then 0
    else if placed[0].y + placed[0].h > Bottom(placed[1..]) then placed[0].y + placed[0].h
    else Bottom(placed[1..])
  }

  lemma {:induction false} AboveBottom(placed: seq<Widget>)
    ensures forall o :: o in placed ==> o.y + o.h <= Bottom(placed)
    decreases |placed|
  {
    if placed != [] { AboveBottom(placed[1..]); }
  }

  /** The first row from `y` on where `v` fits. */
  function FirstRow(v: Widget, placed: seq<Widget>, y: nat): (row: nat)
    requires Shaped(v)
    ensures row >= y && Fits(v, row, placed)
    ensures forall z :: y <= z < row ==> !Fits(v, z, placed)
    decreases Bottom(placed) - y
  {
    if Fits(v, y, placed) then y
    else (AboveBottom(placed); FirstRow(v, placed, y + 1))
  }

  function Land(v: Widget, placed: seq<Widget>): Widget
    requires Shaped(v)
  {
    v.(y := FirstRow(v, placed, 0))
  }

  function Stack(rest: seq<Widget>, placed: seq<Widget>): seq<Widget>
    requires AllShaped(rest)
    decreases |rest|
  {
    if rest == [] then placed else Stack(rest[1..], placed + [Land(rest[0], placed)])
  }

  // The order of placing.

  function Rank(registry: seq<string>, id: string): nat {
    if registry == [] || registry[0] == id then 0 else 1 + Rank(registry[1..], id)
  }

  predicate Before(registry: seq<string>, a: Widget, b: Widget) {
    a.y < b.y || (a.y == b.y && (a.x < b.x || (a.x == b.x && Rank(registry, a.id) <= Rank(registry, b.id))))
  }

  function ByRow(registry: seq<string>): (Widget, Widget) -> bool { (a, b) => Before(registry, a, b) }

  lemma ByRowIsAnOrder(registry: seq<string>)
    ensures TotalPreorder(ByRow(registry))
  {
  }

  /** `by_id.get(widget.id, widget)`. */
  function Replace(v: Widget, placed: seq<Widget>): Widget {
    if placed == [] then v else if placed[0].id == v.id then placed[0] else Replace(v, placed[1..])
  }

  function Placed(registry: seq<string>, ws: seq<Widget>): seq<Widget>
    requires AllShaped(ws)
  {
    VisibleIn(ws);
    SortPermutes(ByRow(registry), Visible(ws));
    SameMultisetSameElements(Sort(ByRow(registry), Visible(ws)), Visible(ws));
    Stack(Sort(ByRow(registry), Visible(ws)), [])
  }

  function Pack(registry: seq<string>, ws: seq<Widget>): seq<Widget>
    requires AllShaped(ws)
  {
    seq(|ws|, i requires 0 <= i < |ws| => Replace(ws[i], Placed(registry, ws)))
  }

  lemma {:induction false} VisibleIn(ws: seq<Widget>)
    ensures forall v :: v in Visible(ws) <==> v in ws && !v.hidden
    decreases |ws|
  {
    if ws != [] { VisibleIn(ws[1..]); }
  }

  // The loops.

  method FirstRowLoop(v: Widget, placed: seq<Widget>) returns (candidate: Widget)
    requires Shaped(v)
    ensures candidate == Land(v, placed)
  {
    candidate := v.(y := 0);
    while !Fits(candidate, candidate.y, placed)
      invariant candidate == v.(y := candidate.y) && candidate.y >= 0
      invariant FirstRow(v, placed, candidate.y) == FirstRow(v, placed, 0)
      decreases Bottom(placed) - candidate.y
    {
      AboveBottom(placed);
      assert candidate.(y := candidate.y) == v.(y := candidate.y);
      candidate := candidate.(y := candidate.y + 1);
    }
    assert candidate.(y := candidate.y) == v.(y := candidate.y);
  }

  method PackWidgets(registry: seq<string>, ws: seq<Widget>) returns (r: seq<Widget>)
    requires AllShaped(ws)
    ensures r == Pack(registry, ws)
  {
    VisibleIn(ws);
    SortPermutes(ByRow(registry), Visible(ws));
    SameMultisetSameElements(Sort(ByRow(registry), Visible(ws)), Visible(ws));
    var visible := Sort(ByRow(registry), Visible(ws));
    var placed: seq<Widget> := [];
    for i := 0 to |visible|
      invariant Stack(visible[i..], placed) == Placed(registry, ws)
    {
      var candidate := FirstRowLoop(visible[i], placed);
      assert visible[i..][1..] == visible[i + 1..];
      placed := placed + [candidate];
    }
    r := [];
    for i := 0 to |ws|
      invariant r == Pack(registry, ws)[..i]
    {
      r := r + [Replace(ws[i], placed)];
    }
  }
}
