/** The widget registries of the overview dashboard, by layout version. */
module LayoutRegistry {
  import opened LayoutPacking
  import opened LayoutTheorems
  import opened LayoutMerge

  const V1A: seq<Spec> := [
    Spec("edr-state", 0, 0, 12, 2, 6, 2, 12, 4, true),
    Spec("kpi-events", 0, 2, 2, 2, 1, 2, 4, 3, true),
    Spec("kpi-alerts", 2, 2, 2, 2, 1, 2, 4, 3, true),
    Spec("kpi-open-incidents", 4, 2, 2, 2, 1, 2, 4, 3, true),
    Spec("kpi-online-endpoints", 6, 2, 2, 2, 1, 2, 4, 3, true),
    Spec("kpi-event-failures", 8, 2, 2, 2, 1, 2, 4, 3, true)
  ]

  const V1B: seq<Spec> := [
    Spec("kpi-storage-buckets", 10, 2, 2, 2, 1, 2, 4, 3, true),
    Spec("alert-severity", 0, 4, 4, 5, 3, 4, 6, 7, true),
    Spec("event-volume", 4, 4, 8, 5, 6, 4, 12, 8, true),
    Spec("alert-volume", 0, 9, 6, 5, 6, 4, 12, 8, true),
    Spec("incident-activity", 6, 9, 6, 5, 6, 4, 12, 8, true),
    Spec("endpoint-risk", 0, 14, 4, 5, 3, 4, 6, 8, true)
  ]

  const V1C: seq<Spec> := [
    Spec("highest-risk-endpoints", 4, 14, 4, 5, 4, 4, 8, 8, true),
    Spec("incident-queue", 8, 14, 4, 5, 4, 4, 8, 8, true),
    Spec("response-guidance", 0, 19, 12, 5, 6, 4, 12, 9, true),
    Spec("endpoint-operating-systems", 0, 24, 4, 4, 3, 4, 6, 7, true),
    Spec("sensor-health", 4, 24, 4, 4, 3, 4, 6, 7, true),
    Spec("top-rules", 8, 24, 4, 4, 3, 4, 6, 7, true)
  ]

  const V1D: seq<Spec> := [
    Spec("mitre-distribution", 0, 28, 6, 5, 4, 4, 8, 8, true),
    Spec("process-network-signals", 6, 28, 6, 5, 4, 4, 8, 8, true),
    Spec("file-dns-l7-signals", 0, 33, 6, 5, 4, 4, 8, 8, true),
    Spec("failure-distribution", 6, 33, 6, 5, 4, 4, 8, 8, true),
    Spec("storage-distribution", 0, 38, 6, 5, 4, 4, 8, 8, true)
  ]

  const V1: seq<Spec> := V1A + (V1B + (V1C + V1D))

  const V2A: seq<Spec> := [
    Spec("edr-state", 0, 0, 12, 2, 6, 2, 12, 4, true),
    Spec("kpi-alerts", 0, 2, 3, 2, 1, 2, 4, 3, true),
    Spec("kpi-open-incidents", 3, 2, 3, 2, 1, 2, 4, 3, true),
    Spec("kpi-high-risk-endpoints", 6, 2, 3, 2, 1, 2, 4, 3, true),
    Spec("kpi-event-failures", 9, 2, 3, 2, 1, 2, 4, 3, true)
  ]

  const V2B: seq<Spec> := [
    Spec("detection-activity", 0, 4, 8, 5, 6, 4, 12, 8, true),
    Spec("alert-severity", 8, 4, 4, 5, 3, 4, 6, 7, true),
    Spec("endpoint-risk", 0, 9, 4, 5, 3, 4, 6, 8, true),
    Spec("highest-risk-endpoints", 4, 9, 8, 5, 4, 4, 8, 8, true),
    Spec("incident-queue", 0, 14, 12, 5, 6, 4, 12, 8, true)
  ]

  const V2: seq<Spec> := V2A + V2B

  predicate Apart(a: seq<Spec>, b: seq<Spec>) {
    a == [] || (Find(b, a[0].id).None? && Apart(a[1..], b))
  }

  lemma {:induction false} FindAppend(a: seq<Spec>, b: seq<Spec>, id: string)
    ensures Find(a + b, id) == if Find(a, id).Some? then Find(a, id) else Find(b, id)
    decreases |a|
  {
    if a == [] { assert a + b == b; } else {
      assert (a + b)[1..] == a[1..] + b && (a + b)[0] == a[0];
      FindAppend(a[1..], b, id);
    }
  }

  lemma {:induction false} ApartAppend(a: seq<Spec>, b: seq<Spec>, c: seq<Spec>)
    requires Apart(a, b) && Apart(a, c)
    ensures Apart(a, b + c)
    decreases |a|
  {
    if a != [] {
      FindAppend(b, c, a[0].id);
      ApartAppend(a[1..], b, c);
    }
  }

  lemma {:induction false} Append(a: seq<Spec>, b: seq<Spec>)
    requires DistinctSpecs(a) && DistinctSpecs(b) && Apart(a, b)
    ensures DistinctSpecs(a + b) && MaxHeights(a + b) == MaxHeights(a) + MaxHeights(b)
    decreases |a|
  {
    if a == [] { assert a + b == b; } else {
      assert (a + b)[1..] == a[1..] + b && (a + b)[0] == a[0];
      FindAppend(a[1..], b, a[0].id);
      Append(a[1..], b);
    }
  }

  lemma V1ARows()
    ensures AllGood(V1A) && DistinctSpecs(V1A) && MaxHeights(V1A) == 19
  {
  }

  lemma V1BRows()
    ensures AllGood(V1B) && DistinctSpecs(V1B) && MaxHeights(V1B) == 42
  {
  }

  lemma V1CRows()
    ensures AllGood(V1C) && DistinctSpecs(V1C) && MaxHeights(V1C) == 46
  {
  }

  lemma V1DRows()
    ensures AllGood(V1D) && DistinctSpecs(V1D) && MaxHeights(V1D) == 40
  {
  }

  lemma V1ABApart()
    ensures Apart(V1A, V1B)
  {
  }

  lemma V1ACApart()
    ensures Apart(V1A, V1C)
  {
  }

  lemma V1ADApart()
    ensures Apart(V1A, V1D)
  {
  }

  lemma V1BCApart()
    ensures Apart(V1B, V1C)
  {
  }

  lemma V1BDApart()
    ensures Apart(V1B, V1D)
  {
  }

  lemma V1CDApart()
    ensures Apart(V1C, V1D)
  {
  }

  lemma V1IsARegistry()
    ensures Registry(V1)
  {
    V1ARows();
    V1BRows();
    V1CRows();
    V1DRows();
    V1CDApart();
    Append(V1C, V1D);
    V1BCApart();
    V1BDApart();
    ApartAppend(V1B, V1C, V1D);
    Append(V1B, V1C + V1D);
    V1ABApart();
    V1ACApart();
    V1ADApart();
    ApartAppend(V1A, V1C, V1D);
    ApartAppend(V1A, V1B, V1C + V1D);
    Append(V1A, V1B + (V1C + V1D));
  }

  lemma V2ARows()
    ensures AllGood(V2A) && DistinctSpecs(V2A) && MaxHeights(V2A) == 16
  {
  }

  lemma V2BRows()
    ensures AllGood(V2B) && DistinctSpecs(V2B) && MaxHeights(V2B) == 39
  {
  }

  lemma V2Apart()
    ensures Apart(V2A, V2B)
  {
  }

  lemma V2IsARegistry()
    ensures Registry(V2)
  {
    V2ARows();
    V2BRows();
    V2Apart();
    Append(V2A, V2B);
  }

  // A default layout without overlaps and without gaps is already packed.

  predicate Covers(v: Widget, c: int, r: int) { v.x <= c < v.x + v.w && v.y <= r < v.y + v.h }

  ghost predicate Covered(specs: seq<Spec>, c: int, r: int) {
    exists k :: 0 <= k < |specs| && Covers(Default(specs[k]), c, r)
  }

  lemma {:induction false} DefaultsDistinct(specs: seq<Spec>)
    requires DistinctSpecs(specs)
    ensures DistinctIds(Defaults(specs)) && forall v :: v in Defaults(specs) ==> Find(specs, v.id).Some?
    decreases |specs|
  {
    if specs != [] { DefaultsDistinct(specs[1..]); }
  }

  ghost predicate NoneCollide(specs: seq<Spec>) {
    forall i, j :: 0 <= i < |specs| && 0 <= j < |specs| && i != j ==> !Collides(Default(specs[i]), Default(specs[j]))
  }

  /** No widget starts below the rows that are covered completely. */
  ghost predicate NoGaps(specs: seq<Spec>, rows: int) {
    && (forall i :: 0 <= i < |specs| ==> specs[i].y <= rows)
    && (forall c, r :: 0 <= c < COLUMNS && 0 <= r < rows ==> Covered(specs, c, r))
  }

  lemma {:induction false} GapsArePropped(specs: seq<Spec>, rows: int, i: nat, z: nat)
    requires AllGood(specs) && DistinctSpecs(specs) && NoGaps(specs, rows) && i < |specs| && z < specs[i].y
    ensures Propped(Default(specs[i]), z, Defaults(specs))
  {
    DefaultsAre(specs);
    DefaultsDistinct(specs);
    assert GoodSpec(specs[i]);
    assert Covered(specs, specs[i].x, z);
    var k :| 0 <= k < |specs| && Covers(Default(specs[k]), specs[i].x, z);
    assert Defaults(specs)[k] in Defaults(specs);
  }

  lemma {:induction false} DefaultsDoNotOverlap(specs: seq<Spec>, a: Widget, b: Widget)
    requires NoneCollide(specs) && a in Defaults(specs) && b in Defaults(specs) && a.id != b.id
    ensures !Collides(a, b)
  {
    DefaultsAre(specs);
    var i :| 0 <= i < |specs| && Defaults(specs)[i] == a;
    var j :| 0 <= j < |specs| && Defaults(specs)[j] == b;
  }

  lemma {:induction false} TiledIsSettled(specs: seq<Spec>, rows: int)
    requires AllGood(specs) && DistinctSpecs(specs) && NoneCollide(specs) && NoGaps(specs, rows)
    ensures DistinctIds(Defaults(specs)) && Settled(Visible(Defaults(specs)))
  {
    var d := Defaults(specs);
    DefaultsAre(specs);
    DefaultsDistinct(specs);
    VisibleIn(d);
    assert AllShaped(d) by {
      forall v | v in d ensures Shaped(v) {
        var i :| 0 <= i < |d| && d[i] == v;
        assert GoodSpec(specs[i]);
      }
    }
    assert NoOverlap(d) by {
      forall a, b | a in d && b in d && a.id != b.id ensures !Collides(a, b) { DefaultsDoNotOverlap(specs, a, b); }
    }
    assert Supported(d) by {
      forall a, z | a in d && 0 <= z < a.y ensures Propped(a, z, d) {
        var i :| 0 <= i < |d| && d[i] == a;
        GapsArePropped(specs, rows, i, z);
      }
    }
    SettledOnElements(d, Visible(d));
  }

  lemma V2DefaultsApart(i: nat, j: nat)
    requires i < 10 && j < 10 && i != j
    ensures !Collides(Default(V2[i]), Default(V2[j]))
  {
  }

  /** The widget of the default layout that covers a cell. */
  function Owner(c: int, r: int): nat
    requires 0 <= c < COLUMNS && 0 <= r
  {
    if r < 2 then 0 else if r < 4 then 1 + c / 3 else if r < 9 then (if c < 8 then 5 else 6)
    else if r < 14 then (if c < 4 then 7 else 8) else 9
  }

  lemma V2Covers(c: int, r: int)
    requires 0 <= c < COLUMNS && 0 <= r < 14
    ensures Owner(c, r) < 10 && Covers(Default(V2[Owner(c, r)]), c, r)
  {
  }

  /** The default layout of version 2 is settled. */
  lemma V2DefaultsSettled()
    ensures DistinctIds(Defaults(V2)) && Settled(Visible(Defaults(V2)))
  {
    V2IsARegistry();
    assert |V2| == 10 && forall i :: 0 <= i < |V2| ==> V2[i].y <= 14;
    forall i, j | 0 <= i < |V2| && 0 <= j < |V2| && i != j ensures !Collides(Default(V2[i]), Default(V2[j])) {
      V2DefaultsApart(i, j);
    }
    forall c, r | 0 <= c < COLUMNS && 0 <= r < 14 ensures Covered(V2, c, r) {
      V2Covers(c, r);
    }
    TiledIsSettled(V2, 14);
  }
}
