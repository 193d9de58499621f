/** The endpoint list: a query ranks alerts and incidents, scores every endpoint for sorting and
    filtering, and returns its top items; the service calculates the shown score and factors
    from those items. The two scores agree, and both are the score of all alerts. */
module RiskSql {
  import opened Basics
  import opened Sorting
  import opened SqlRanking
  import opened Telemetry
  import opened Risk
  import opened RiskTheorems

  const ALERT_ITEMS := 3
  const INCIDENT_ITEMS := 2

  /** `row_number() - 1` within the rows of the same rule version. */
  function PlaceInRule(s: seq<AlertInput>, a: AlertInput): nat {
    if s == [] then 0 else (if SameRule(a, s[0]) && !AtLeast(a, s[0]) then 1 else 0) + PlaceInRule(s[1..], a)
  }

  /** The rows with rank one in the partition of their rule version. */
  function SqlRepresentatives(rows: seq<AlertInput>, all: seq<AlertInput>): seq<AlertInput> {
    if rows == [] then []
    else (if PlaceInRule(all, rows[0]) == 0 then [rows[0]] else []) + SqlRepresentatives(rows[1..], all)
  }

  function SqlContribution(rows: seq<AlertInput>, all: seq<AlertInput>): nat {
    if rows == [] then 0
    else Weighted(Place(AtLeast, all, rows[0]), rows[0].score) + SqlContribution(rows[1..], all)
  }

  /** What the query returns for one endpoint. */
  datatype EndpointRow = EndpointRow(alerts: seq<AlertInput>, incidents: seq<IncidentInput>, score: int)

  function RiskRow(alerts: seq<AlertInput>, incidents: seq<IncidentInput>): EndpointRow {
    var reps := SqlRepresentatives(alerts, alerts);
    EndpointRow(
      RankedItems(AtLeast, reps, ALERT_ITEMS), RankedItems(Graver, incidents, INCIDENT_ITEMS),
      Least(CAP, SqlContribution(reps, reps) + Least(|incidents|, 2) * INCIDENT_POINTS))
  }

  // The representatives.

  lemma {:induction false} FirstInRule(s: seq<AlertInput>, a: AlertInput)
    ensures PlaceInRule(s, a) == 0 <==> forall b :: b in s && SameRule(a, b) ==> AtLeast(a, b)
    decreases |s|
  {
    if s != [] { FirstInRule(s[1..], a); }
  }

  lemma {:induction false} SqlRepresentativesAre(rows: seq<AlertInput>, all: seq<AlertInput>)
    requires DistinctAlerts(rows)
    ensures forall a :: a in SqlRepresentatives(rows, all) <==> a in rows && PlaceInRule(all, a) == 0
    ensures DistinctAlerts(SqlRepresentatives(rows, all))
    decreases |rows|
  {
    if rows != [] {
      assert DistinctAlerts(rows[1..]) by { assert forall i :: 0 <= i < |rows[1..]| ==> rows[1..][i] == rows[i + 1]; }
      SqlRepresentativesAre(rows[1..], all);
      var rest := SqlRepresentatives(rows[1..], all);
      forall j | 0 <= j < |rest| ensures IdOf(rows[0]) != IdOf(rest[j]) { assert rest[j] in rows[1..]; }
    }
  }

  /** Both pick the same representatives, so both rank them alike. */
  lemma SameRepresentatives(alerts: seq<AlertInput>)
    requires DistinctAlerts(alerts)
    ensures DistinctAlerts(SqlRepresentatives(alerts, alerts))
    ensures Sort(AtLeast, SqlRepresentatives(alerts, alerts)) == Ranked(alerts)
  {
    var reps := SqlRepresentatives(alerts, alerts);
    SqlRepresentativesAre(alerts, alerts);
    RepresentativesAreDistinct(alerts);
    forall a ensures a in reps <==> a in Representatives(alerts) {
      StrongestIsRepresentative(alerts, a);
      FirstInRule(alerts, a);
    }
    SameRanking(reps, Representatives(alerts));
  }

  lemma RankedIsStrict(alerts: seq<AlertInput>)
    requires DistinctAlerts(alerts)
    ensures Strictly(AtLeast, Ranked(alerts))
  {
    RepresentativesAreDistinct(alerts);
    AtLeastIsAnOrder();
    AlertsAreDistinguished(Representatives(alerts));
    SortIsStrict(AtLeast, IdOf, Representatives(alerts));
  }

  // The score of the query.

  lemma {:induction false} InsertContribution(x: AlertInput, s: seq<AlertInput>, all: seq<AlertInput>)
    ensures SqlContribution(Insert(AtLeast, x, s), all) ==
      Weighted(Place(AtLeast, all, x), x.score) + SqlContribution(s, all)
    decreases |s|
  {
    if s != [] && !AtLeast(x, s[0]) { InsertContribution(x, s[1..], all); }
  }

  lemma {:induction false} SortContribution(rows: seq<AlertInput>, all: seq<AlertInput>)
    ensures SqlContribution(Sort(AtLeast, rows), Sort(AtLeast, all)) == SqlContribution(rows, all)
    decreases |rows|
  {
    if rows != [] {
      SortContribution(rows[1..], all);
      InsertContribution(rows[0], Sort(AtLeast, rows[1..]), Sort(AtLeast, all));
      SortPlace(AtLeast, all, rows[0]);
    }
  }

  lemma {:induction false} ContributionIsWeightedSum(s: seq<AlertInput>, j: nat)
    requires Strictly(AtLeast, s) && j <= |s|
    ensures SqlContribution(s[j..], s) == WeightedSum(s, j)
    decreases |s| - j
  {
    if j < |s| {
      ContributionIsWeightedSum(s, j + 1);
      assert s[j..][1..] == s[j + 1..] && s[j..][0] == s[j];
      AtLeastIsAnOrder();
      PlaceAt(AtLeast, s, j);
    }
  }

  /** The score of the query is the score of all alerts and incidents. */
  lemma SqlAgreesWithPython(alerts: seq<AlertInput>, incidents: seq<IncidentInput>)
    requires DistinctAlerts(alerts)
    ensures RiskRow(alerts, incidents).score == Score(alerts, |incidents|)
  {
    var reps := SqlRepresentatives(alerts, alerts);
    SameRepresentatives(alerts);
    RankedIsStrict(alerts);
    SortContribution(reps, reps);
    ContributionIsWeightedSum(Ranked(alerts), 0);
    assert Ranked(alerts)[0..] == Ranked(alerts);
  }

  // The items of the query.

  function IncidentIdOf(i: IncidentInput): int { i.id }

  predicate DistinctIncidents(incidents: seq<IncidentInput>) { DistinctBy(IncidentIdOf, incidents) }

  lemma ItemsAreTheFirst(alerts: seq<AlertInput>, incidents: seq<IncidentInput>)
    requires DistinctAlerts(alerts) && DistinctIncidents(incidents)
    ensures RiskRow(alerts, incidents).alerts == Take(ALERT_ITEMS, Ranked(alerts))
    ensures RiskRow(alerts, incidents).incidents == Take(INCIDENT_ITEMS, Sort(Graver, incidents))
  {
    var reps := SqlRepresentatives(alerts, alerts);
    SameRepresentatives(alerts);
    AtLeastIsAnOrder();
    AlertsAreDistinguished(reps);
    RankedItemsAreTheFirst(AtLeast, IdOf, reps, ALERT_ITEMS);
    GraverIsAnOrder();
    IncidentsAreDistinguished(incidents);
    RankedItemsAreTheFirst(Graver, IncidentIdOf, incidents, INCIDENT_ITEMS);
  }

  lemma IncidentsAreDistinguished(incidents: seq<IncidentInput>)
    requires DistinctIncidents(incidents)
    ensures Distinguishes(Graver, incidents)
  {
    forall a, b | a in incidents && b in incidents && Graver(a, b) && Graver(b, a) ensures a == b {
      var i :| 0 <= i < |incidents| && incidents[i] == a;
      var j :| 0 <= j < |incidents| && incidents[j] == b;
      assert IncidentIdOf(incidents[i]) == IncidentIdOf(incidents[j]);
    }
  }

  // Calculating from the items.

  lemma {:induction false} RepresentNew(reps: seq<AlertInput>, a: AlertInput)
    requires forall r :: r in reps ==> !SameRule(r, a)
    ensures Represent(reps, a) == reps + [a]
    decreases |reps|
  {
    if reps != [] {
      assert reps[0] in reps;
      RepresentNew(reps[1..], a);
    }
  }

  /** A list with one alert per rule represents itself. */
  lemma {:induction false} RepresentsItself(s: seq<AlertInput>)
    requires OnePerRule(s)
    ensures Representatives(s) == s
    decreases |s|
  {
    if s != [] {
      var front := s[..|s| - 1];
      RepresentsItself(front);
      RepresentNew(front, s[|s| - 1]);
      assert s == front + [s[|s| - 1]];
    }
  }

  lemma RankedIsOnePerRule(alerts: seq<AlertInput>)
    requires DistinctAlerts(alerts)
    ensures OnePerRule(Ranked(alerts))
  {
    var reps, s := Representatives(alerts), Ranked(alerts);
    RepresentativesAre(alerts);
    RankedIsStrict(alerts);
    SortPermutes(AtLeast, reps);
    SameMultisetSameElements(reps, s);
    AtLeastIsAnOrder();
    forall i, j | 0 <= i < j < |s| ensures !SameRule(s[i], s[j]) {
      assert s[i] in reps && s[j] in reps && !AtLeast(s[j], s[i]);
      if SameRule(s[i], s[j]) { OnlyOne(reps, s[i], s[j]); }
    }
  }

  /** The items are ranked as they come. */
  lemma RankedItemsStay(alerts: seq<AlertInput>)
    requires DistinctAlerts(alerts)
    ensures var items := Take(ALERT_ITEMS, Ranked(alerts)); Ranked(items) == items
  {
    var items := Take(ALERT_ITEMS, Ranked(alerts));
    RankedIsOnePerRule(alerts);
    RankedIsStrict(alerts);
    RepresentsItself(items);
    AtLeastIsAnOrder();
    SortOfSorted(AtLeast, items);
  }

  lemma {:induction false} OnlyItemsWeigh(s: seq<AlertInput>, place: nat)
    ensures WeightedSum(Take(ALERT_ITEMS, s), place) == WeightedSum(s, place)
    ensures AlertFactors(Take(ALERT_ITEMS, s), place) == AlertFactors(s, place)
    decreases |s| - place
  {
    if place >= ALERT_ITEMS {
      NoWeightLater(s, place);
    } else if place < |s| {
      OnlyItemsWeigh(s, place + 1);
    }
  }

  lemma IncidentItemsStay(incidents: seq<IncidentInput>)
    ensures var items := Take(INCIDENT_ITEMS, Sort(Graver, incidents));
      Take(INCIDENT_ITEMS, Sort(Graver, items)) == items && |items| == Least(|incidents|, 2)
  {
    var items := Take(INCIDENT_ITEMS, Sort(Graver, incidents));
    GraverIsAnOrder();
    SortSorts(Graver, incidents);
    SortPermutes(Graver, incidents);
    SortOfSorted(Graver, items);
  }

  /** The score and the factors that are shown, calculated from the items of the query, are the
      ones of all alerts and incidents, and the shown score is the one used for sorting. */
  lemma ShownScoreIsTheSortedScore(alerts: seq<AlertInput>, incidents: seq<IncidentInput>)
    requires DistinctAlerts(alerts) && DistinctIncidents(incidents)
    ensures var row := RiskRow(alerts, incidents);
      && Score(row.alerts, |row.incidents|) == row.score
      && row.score == Score(alerts, |incidents|)
      && Candidates(row.alerts, row.incidents) == Candidates(alerts, incidents)
      && Capped(Candidates(row.alerts, row.incidents), 0) == Capped(Candidates(alerts, incidents), 0)
  {
    SqlAgreesWithPython(alerts, incidents);
    ItemsAreTheFirst(alerts, incidents);
    RankedItemsStay(alerts);
    OnlyItemsWeigh(Ranked(alerts), 0);
    IncidentItemsStay(incidents);
  }
}
