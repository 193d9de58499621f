/** The score does not depend on the order of the alerts, and another alert or incident never
    lowers it. */
module RiskTheorems {
  import opened Sorting
  import opened Telemetry
  import opened Risk
  import Detection

  function IdOf(a: AlertInput): int { a.id }

  predicate DistinctAlerts(alerts: seq<AlertInput>) { DistinctBy(IdOf, alerts) }

  lemma AtLeastIsAnOrder()
    ensures TotalPreorder(AtLeast)
  {
  }

  lemma AlertsAreDistinguished(alerts: seq<AlertInput>)
    requires DistinctAlerts(alerts)
    ensures Distinguishes(AtLeast, alerts)
  {
  }

  // The representatives are the strongest alerts of their rules.

  ghost predicate Strongest(a: AlertInput, alerts: seq<AlertInput>) {
    a in alerts && forall b :: b in alerts && SameRule(a, b) ==> AtLeast(a, b)
  }

  predicate OnePerRule(reps: seq<AlertInput>) { forall i, j :: 0 <= i < j < |reps| ==> !SameRule(reps[i], reps[j]) }

  ghost predicate Represented(reps: seq<AlertInput>, b: AlertInput) { exists a :: a in reps && SameRule(a, b) }

  ghost predicate AllRepresented(reps: seq<AlertInput>, alerts: seq<AlertInput>) {
    forall b :: b in alerts ==> Represented(reps, b)
  }

  ghost predicate AllStrongest(reps: seq<AlertInput>, alerts: seq<AlertInput>) {
    forall a :: a in reps ==> Strongest(a, alerts)
  }

  /** The new alert enters, displaces the weaker one of its rule, or stays out. */
  lemma {:induction false} RepresentMember(reps: seq<AlertInput>, a: AlertInput, x: AlertInput)
    requires OnePerRule(reps)
    ensures x in Represent(reps, a) ==> x == a || x in reps
    ensures x in reps && !SameRule(x, a) ==> x in Represent(reps, a)
    ensures x in reps && SameRule(x, a) ==> (if AtLeast(x, a) then x else a) in Represent(reps, a)
    ensures x in Represent(reps, a) && SameRule(x, a) ==> AtLeast(x, a)
    decreases |reps|
  {
    if reps != [] {
      assert reps == [reps[0]] + reps[1..];
      if SameRule(reps[0], a) { NotInRest(reps, x); } else { RepresentMember(reps[1..], a, x); }
    }
  }

  lemma NotInRest(reps: seq<AlertInput>, x: AlertInput)
    requires OnePerRule(reps) && reps != []
    ensures x in reps[1..] ==> !SameRule(reps[0], x)
  {
  }

  lemma {:induction false} RepresentKeepsOnePerRule(reps: seq<AlertInput>, a: AlertInput)
    requires OnePerRule(reps)
    ensures OnePerRule(Represent(reps, a))
    decreases |reps|
  {
    if reps != [] && !SameRule(reps[0], a) {
      RepresentKeepsOnePerRule(reps[1..], a);
      var rest := Represent(reps[1..], a);
      forall j | 0 <= j < |rest| ensures !SameRule(reps[0], rest[j]) { RepresentMember(reps[1..], a, rest[j]); }
    }
  }

  lemma {:induction false} RepresentsTheNew(reps: seq<AlertInput>, a: AlertInput)
    ensures Represented(Represent(reps, a), a)
    decreases |reps|
  {
    if reps == [] || SameRule(reps[0], a) {
      assert SameRule(Represent(reps, a)[0], a);
    } else {
      RepresentsTheNew(reps[1..], a);
      var r :| r in Represent(reps[1..], a) && SameRule(r, a);
      assert r in Represent(reps, a);
    }
  }

  lemma OnlyOne(reps: seq<AlertInput>, a: AlertInput, b: AlertInput)
    requires OnePerRule(reps) && a in reps && b in reps && SameRule(a, b)
    ensures a == b
  {
    var i :| 0 <= i < |reps| && reps[i] == a;
    var j :| 0 <= j < |reps| && reps[j] == b;
    assert SameRule(reps[i], reps[j]) && SameRule(reps[j], reps[i]);
  }

  /** What stands for a rule afterwards is no weaker than what stood for it before. */
  lemma NoWeaker(reps: seq<AlertInput>, x: AlertInput, a: AlertInput, r: AlertInput)
    requires OnePerRule(reps) && a in Represent(reps, x) && r in reps && SameRule(a, r)
    ensures AtLeast(a, r)
  {
    RepresentMember(reps, x, a);
    RepresentMember(reps, x, r);
    RepresentKeepsOnePerRule(reps, x);
    if SameRule(r, x) {
      OnlyOne(Represent(reps, x), a, if AtLeast(r, x) then r else x);
    } else {
      OnlyOne(reps, a, r);
    }
  }

  lemma StrongerThanFront(front: seq<AlertInput>, reps: seq<AlertInput>, x: AlertInput, a: AlertInput, b: AlertInput)
    requires OnePerRule(reps) && AllStrongest(reps, front) && Represented(reps, b)
    requires a in Represent(reps, x) && b in front && SameRule(a, b)
    ensures AtLeast(a, b)
  {
    var r :| r in reps && SameRule(r, b);
    assert Strongest(r, front);
    NoWeaker(reps, x, a, r);
  }

  lemma StrongestAfter(front: seq<AlertInput>, reps: seq<AlertInput>, x: AlertInput, a: AlertInput)
    requires OnePerRule(reps) && AllStrongest(reps, front) && AllRepresented(reps, front) && a in Represent(reps, x)
    ensures Strongest(a, front + [x])
  {
    RepresentMember(reps, x, a);
    assert a in front + [x] by { assert a in reps ==> Strongest(a, front); }
    forall b | b in front && SameRule(a, b) ensures AtLeast(a, b) { StrongerThanFront(front, reps, x, a, b); }
  }

  lemma RepresentedAfter(reps: seq<AlertInput>, x: AlertInput, b: AlertInput)
    requires OnePerRule(reps) && Represented(reps, b)
    ensures Represented(Represent(reps, x), b)
  {
    var r :| r in reps && SameRule(r, b);
    RepresentMember(reps, x, r);
    assert SameRule(r, x) ==> SameRule(if AtLeast(r, x) then r else x, b);
  }

  /** Every rule with an alert has exactly one representative, its strongest alert. */
  lemma {:induction false} RepresentativesAre(alerts: seq<AlertInput>)
    ensures OnePerRule(Representatives(alerts))
    ensures AllStrongest(Representatives(alerts), alerts) && AllRepresented(Representatives(alerts), alerts)
    decreases |alerts|
  {
    if alerts != [] {
      var front, x := alerts[..|alerts| - 1], alerts[|alerts| - 1];
      var reps := Representatives(front);
      RepresentativesAre(front);
      assert alerts == front + [x];
      RepresentKeepsOnePerRule(reps, x);
      forall a | a in Represent(reps, x) ensures Strongest(a, alerts) { StrongestAfter(front, reps, x, a); }
      forall b | b in alerts ensures Represented(Represent(reps, x), b) {
        if b in front { RepresentedAfter(reps, x, b); } else { RepresentsTheNew(reps, x); }
      }
    }
  }

  lemma RepresentativeOf(alerts: seq<AlertInput>, a: AlertInput) returns (r: AlertInput)
    requires a in alerts
    ensures r in Representatives(alerts) && r in alerts && SameRule(r, a) && AtLeast(r, a)
  {
    RepresentativesAre(alerts);
    assert Represented(Representatives(alerts), a);
    r :| r in Representatives(alerts) && SameRule(r, a);
    assert Strongest(r, alerts);
  }

  lemma RepresentativeIsStrongest(alerts: seq<AlertInput>, r: AlertInput)
    requires r in Representatives(alerts)
    ensures Strongest(r, alerts)
  {
    RepresentativesAre(alerts);
  }

  lemma StrongestIsRepresentative(alerts: seq<AlertInput>, a: AlertInput)
    requires DistinctAlerts(alerts)
    ensures a in Representatives(alerts) <==> Strongest(a, alerts)
  {
    if a in Representatives(alerts) { RepresentativeIsStrongest(alerts, a); }
    if Strongest(a, alerts) {
      var r := RepresentativeOf(alerts, a);
      AlertsAreDistinguished(alerts);
      assert AtLeast(a, r);
    }
  }

  lemma RepresentativesAreDistinct(alerts: seq<AlertInput>)
    requires DistinctAlerts(alerts)
    ensures DistinctAlerts(Representatives(alerts))
  {
    var reps := Representatives(alerts);
    RepresentativesAre(alerts);
    forall i, j | 0 <= i < j < |reps| ensures IdOf(reps[i]) != IdOf(reps[j]) {
      assert reps[i] in reps && reps[j] in reps;
      SameIdSameAlert(alerts, reps[i], reps[j]);
    }
  }

  lemma SameIdSameAlert(alerts: seq<AlertInput>, a: AlertInput, b: AlertInput)
    requires DistinctAlerts(alerts) && a in alerts && b in alerts
    ensures a.id == b.id ==> a == b
  {
  }

  lemma SameMembersSameMultiset(s: seq<AlertInput>, t: seq<AlertInput>)
    requires DistinctAlerts(s) && DistinctAlerts(t) && forall a :: a in s <==> a in t
    ensures multiset(s) == multiset(t)
  {
    forall a ensures multiset(s)[a] == multiset(t)[a] {
      DistinctCountsOnce(IdOf, s, a);
      DistinctCountsOnce(IdOf, t, a);
      assert a in s <==> a in multiset(s);
      assert a in t <==> a in multiset(t);
    }
  }

  /** The same alerts in another order give the same ranking, hence the same score. */
  lemma OrderOfAlertsDoesNotMatter(alerts: seq<AlertInput>, other: seq<AlertInput>, incidents: nat)
    requires DistinctAlerts(alerts) && multiset(alerts) == multiset(other)
    ensures Ranked(alerts) == Ranked(other) && Score(alerts, incidents) == Score(other, incidents)
  {
    PermutedStaysDistinct(IdOf, alerts, other);
    SameMultisetSameElements(alerts, other);
    forall a ensures a in Representatives(alerts) <==> a in Representatives(other) {
      StrongestIsRepresentative(alerts, a);
      StrongestIsRepresentative(other, a);
    }
    RepresentativesAreDistinct(alerts);
    RepresentativesAreDistinct(other);
    SameRanking(Representatives(alerts), Representatives(other));
  }

  lemma SameRanking(s: seq<AlertInput>, t: seq<AlertInput>)
    requires DistinctAlerts(s) && DistinctAlerts(t) && forall a :: a in s <==> a in t
    ensures Sort(AtLeast, s) == Sort(AtLeast, t)
  {
    SameMembersSameMultiset(s, t);
    AtLeastIsAnOrder();
    AlertsAreDistinguished(s);
    SortIgnoresOrder(AtLeast, s, t);
  }

  // More alerts, more risk.

  function Reaching(s: seq<AlertInput>, v: nat): nat {
    if s == [] then 0 else (if s[0].score >= v then 1 else 0) + Reaching(s[1..], v)
  }

  lemma {:induction false} ReachingBound(s: seq<AlertInput>, v: nat)
    ensures Reaching(s, v) <= |s|
    ensures (forall i :: 0 <= i < |s| ==> s[i].score < v) ==> Reaching(s, v) == 0
    decreases |s|
  {
    if s != [] { ReachingBound(s[1..], v); }
  }

  lemma {:induction false} InsertReaching(x: AlertInput, s: seq<AlertInput>, v: nat)
    ensures Reaching(Insert(AtLeast, x, s), v) == (if x.score >= v then 1 else 0) + Reaching(s, v)
    decreases |s|
  {
    if s != [] && !AtLeast(x, s[0]) { InsertReaching(x, s[1..], v); }
  }

  lemma {:induction false} SortReaching(s: seq<AlertInput>, v: nat)
    ensures Reaching(Sort(AtLeast, s), v) == Reaching(s, v)
    decreases |s|
  {
    if s != [] {
      SortReaching(s[1..], v);
      InsertReaching(s[0], Sort(AtLeast, s[1..]), v);
    }
  }

  lemma {:induction false} RepresentReaching(reps: seq<AlertInput>, x: AlertInput, v: nat)
    ensures Reaching(Represent(reps, x), v) >= Reaching(reps, v)
    decreases |reps|
  {
    if reps != [] { RepresentReaching(reps[1..], x, v); }
  }

  /** The alert at place `i` reaches `v` exactly when more than `i` alerts do. */
  lemma {:induction false} ReachingAtPlace(s: seq<AlertInput>, i: nat, v: nat)
    requires Sorted(AtLeast, s)
    ensures Reaching(s, v) > i <==> i < |s| && s[i].score >= v
    decreases |s|
  {
    ReachingBound(s, v);
    if s != [] {
      ReachingBound(s[1..], v);
      if i > 0 { ReachingAtPlace(s[1..], i - 1, v); }
      assert i > 0 && i < |s| ==> s[1..][i - 1] == s[i] && AtLeast(s[0], s[i]);
      assert forall j :: 0 <= j < |s[1..]| ==> s[1..][j] == s[j + 1] && AtLeast(s[0], s[j + 1]);
    }
  }

  lemma WeightedGrows(place: nat, a: nat, b: nat)
    requires a <= b
    ensures Weighted(place, a) <= Weighted(place, b)
  {
  }

  lemma {:induction false} WeightedSumGrows(s: seq<AlertInput>, t: seq<AlertInput>, place: nat)
    requires Sorted(AtLeast, s) && Sorted(AtLeast, t) && forall v :: Reaching(s, v) <= Reaching(t, v)
    ensures WeightedSum(s, place) <= WeightedSum(t, place)
    decreases |s| - place
  {
    if place < |s| {
      var v := s[place].score;
      ReachingAtPlace(s, place, v);
      ReachingAtPlace(t, place, v);
      assert Reaching(s, v) <= Reaching(t, v);
      WeightedGrows(place, v, t[place].score);
      WeightedSumGrows(s, t, place + 1);
    }
  }

  /** Another active alert or another open incident never lowers the score. */
  lemma MoreNeverLowersTheScore(alerts: seq<AlertInput>, x: AlertInput, incidents: nat)
    ensures Score(alerts, incidents) <= Score(alerts + [x], incidents)
    ensures Score(alerts, incidents) <= Score(alerts, incidents + 1)
  {
    var reps, more := Representatives(alerts), Representatives(alerts + [x]);
    assert (alerts + [x])[..|alerts|] == alerts;
    assert more == Represent(reps, x);
    AtLeastIsAnOrder();
    SortSorts(AtLeast, reps);
    SortSorts(AtLeast, more);
    forall v: nat ensures Reaching(Sort(AtLeast, reps), v) <= Reaching(Sort(AtLeast, more), v) {
      SortReaching(reps, v);
      SortReaching(more, v);
      RepresentReaching(reps, x, v);
    }
    WeightedSumGrows(Sort(AtLeast, reps), Sort(AtLeast, more), 0);
  }

  /** The highest score shown is the score of the first alert of the ranking. */
  lemma {:induction false} HighestIsMaximal(alerts: seq<AlertInput>)
    ensures Highest(alerts).None? <==> alerts == []
    ensures forall a :: a in alerts ==> a.score <= Highest(alerts).value
    ensures alerts != [] ==> exists a :: a in alerts && a.score == Highest(alerts).value
    decreases |alerts|
  {
    if alerts != [] {
      var front, x := alerts[..|alerts| - 1], alerts[|alerts| - 1];
      HighestIsMaximal(front);
      assert alerts == front + [x];
      if Highest(front).Some? && Highest(front).value >= x.score {
        var a :| a in front && a.score == Highest(front).value;
        assert a in alerts;
      } else {
        assert x in alerts;
      }
    }
  }

  lemma HighestHeadsTheRanking(alerts: seq<AlertInput>)
    requires alerts != []
    ensures Ranked(alerts) != [] && Highest(alerts) == Some(Ranked(alerts)[0].score)
  {
    HighestIsMaximal(alerts);
    var a :| a in alerts && a.score == Highest(alerts).value;
    var r := RepresentativeOf(alerts, a);
    FirstIsStrongest(Representatives(alerts), r);
    RepresentativeIsStrongest(alerts, Ranked(alerts)[0]);
  }

  lemma FirstIsStrongest(reps: seq<AlertInput>, r: AlertInput)
    requires r in reps
    ensures var s := Sort(AtLeast, reps); s != [] && s[0] in reps && AtLeast(s[0], r)
  {
    var s := Sort(AtLeast, reps);
    AtLeastIsAnOrder();
    SortSorts(AtLeast, reps);
    SortPermutes(AtLeast, reps);
    SameMultisetSameElements(reps, s);
    var i :| 0 <= i < |s| && s[i] == r;
  }

  lemma GraverIsAnOrder()
    ensures TotalPreorder(Graver)
  {
  }

  /** The incidents that become factors are the two gravest: severity first, then the last
      detection, then the identifier. */
  lemma TheTwoGravestIncidentsCount(incidents: seq<IncidentInput>, a: IncidentInput, b: IncidentInput)
    requires a in Take(2, Sort(Graver, incidents)) && b in incidents && b !in Take(2, Sort(Graver, incidents))
    ensures a in incidents && Graver(a, b)
    ensures Detection.Rank(a.severity) >= Detection.Rank(b.severity)
  {
    var s := Sort(Graver, incidents);
    GraverIsAnOrder();
    SortSorts(Graver, incidents);
    SortPermutes(Graver, incidents);
    SameMultisetSameElements(incidents, s);
    var i :| 0 <= i < |Take(2, s)| && Take(2, s)[i] == a;
    var j :| 0 <= j < |s| && s[j] == b;
    assert forall t :: 0 <= t < |Take(2, s)| ==> Take(2, s)[t] == s[t];
  }
}
