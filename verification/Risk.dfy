/** The risk of an endpoint: one representative alert per rule version, the three strongest
    weighted, up to two open incidents, capped at 100. Risk scores are kept with two decimals;
    here they count hundredths. */
module Risk {
  import opened Basics
  import opened Sorting
  import opened Telemetry
  import Detection

  datatype AlertInput = AlertInput(id: int, code: string, version: int, score: nat, at: int)

  datatype IncidentInput = IncidentInput(id: int, severity: Detection.Severity, at: int)

  datatype Source = FromAlert | FromIncident

  datatype Factor = Factor(source: Source, id: int, contribution: int)

  datatype Level = LowRisk | MediumRisk | HighRisk | CriticalRisk

  const CAP := 100
  const INCIDENT_POINTS := 10

  function LevelOf(score: int): Level {
    if score >= 80 then CriticalRisk else if score >= 50 then HighRisk else if score >= 25 then MediumRisk else LowRisk
  }

  // Representatives.

  /** The order of `(risk_score, detected_at, alert_id)`, highest first. */
  predicate AtLeast(a: AlertInput, b: AlertInput) {
    a.score > b.score || (a.score == b.score && (a.at > b.at || (a.at == b.at && a.id >= b.id)))
  }

  predicate SameRule(a: AlertInput, b: AlertInput) { a.code == b.code && a.version == b.version }

  /** One step of the loop over the alerts. The dictionary is the list of its values, which
      Python keeps in the order of insertion. */
  function Represent(reps: seq<AlertInput>, a: AlertInput): seq<AlertInput> {
    if reps == [] then [a]
    else if SameRule(reps[0], a) then (if AtLeast(reps[0], a) then reps else [a] + reps[1..])
    else [reps[0]] + Represent(reps[1..], a)
  }

  function Representatives(alerts: seq<AlertInput>): seq<AlertInput> {
    if alerts == [] then [] else Represent(Representatives(alerts[..|alerts| - 1]), alerts[|alerts| - 1])
  }

  function Ranked(alerts: seq<AlertInput>): seq<AlertInput> { Sort(AtLeast, Representatives(alerts)) }

  // Weights.

  /** `round_half_up` of the weighted score, at the given place of the ranking. */
  function Weighted(place: nat, score: nat): nat {
    if place == 0 then (score + 50) / 100
    else if place == 1 then (score * 25 + 5000) / 10000
    else if place == 2 then (score * 10 + 5000) / 10000
    else 0
  }

  /** The quotient is the integer nearest to the weighted score, halves going up. */
  lemma WeightedRoundsHalfUp(place: nat, score: nat)
    requires place < 3
    ensures var w := if place == 0 then 100 else if place == 1 then 25 else 10;
      2 * score * w - 10000 < 2 * 10000 * Weighted(place, score) <= 2 * score * w + 10000
  {
  }

  function WeightedSum(ranked: seq<AlertInput>, place: nat): nat
    decreases |ranked| - place
  {
    if place >= |ranked| then 0 else Weighted(place, ranked[place].score) + WeightedSum(ranked, place + 1)
  }

  function Score(alerts: seq<AlertInput>, incidents: nat): int {
    Least(CAP, WeightedSum(Ranked(alerts), 0) + INCIDENT_POINTS * Least(incidents, 2))
  }

  // Factors.

  function AlertFactors(ranked: seq<AlertInput>, place: nat): seq<Factor>
    decreases |ranked| - place
  {
    if place >= |ranked| || place >= 3 then []
    else
      (if Weighted(place, ranked[place].score) > 0
       then [Factor(FromAlert, ranked[place].id, Weighted(place, ranked[place].score))] else [])
      + AlertFactors(ranked, place + 1)
  }

  predicate Graver(a: IncidentInput, b: IncidentInput) {
    var r, s := Detection.Rank(a.severity), Detection.Rank(b.severity);
    r > s || (r == s && (a.at > b.at || (a.at == b.at && a.id >= b.id)))
  }

  function IncidentFactors(selected: seq<IncidentInput>): seq<Factor> {
    if selected == [] then []
    else [Factor(FromIncident, selected[0].id, INCIDENT_POINTS)] + IncidentFactors(selected[1..])
  }

  function Candidates(alerts: seq<AlertInput>, incidents: seq<IncidentInput>): seq<Factor> {
    AlertFactors(Ranked(alerts), 0) + IncidentFactors(Take(2, Sort(Graver, incidents)))
  }

  function Total(factors: seq<Factor>): int {
    if factors == [] then 0 else factors[0].contribution + Total(factors[1..])
  }

  /** The capping loop: factors are taken until the score is used up; the last one is cut. */
  function Capped(candidates: seq<Factor>, score: int): seq<Factor> {
    if candidates == [] || score >= CAP then []
    else var effective := Least(candidates[0].contribution, CAP - score);
      if effective <= 0 then Capped(candidates[1..], score)
      else [candidates[0].(contribution := effective)] + Capped(candidates[1..], score + effective)
  }

  function Highest(alerts: seq<AlertInput>): Option<nat> {
    if alerts == [] then None
    else var rest := Highest(alerts[..|alerts| - 1]); var last := alerts[|alerts| - 1].score;
      if rest.Some? && rest.value >= last then rest else Some(last)
  }

  // The loops.

  method PickRepresentatives(alerts: seq<AlertInput>) returns (reps: seq<AlertInput>)
    ensures reps == Representatives(alerts)
  {
    reps := [];
    for i := 0 to |alerts|
      invariant reps == Representatives(alerts[..i])
    {
      assert alerts[..i + 1][..i] == alerts[..i];
      reps := Represent(reps, alerts[i]);
    }
    assert alerts[..|alerts|] == alerts;
  }

  method Cap(candidates: seq<Factor>) returns (score: int, factors: seq<Factor>)
    ensures factors == Capped(candidates, 0) && score == Total(factors)
  {
    score, factors := 0, [];
    var i := 0;
    while i < |candidates| && score < CAP
      invariant 0 <= i <= |candidates| && Capped(candidates, 0) == factors + Capped(candidates[i..], score)
      invariant score == Total(factors)
      decreases |candidates| - i
    {
      assert candidates[i..][0] == candidates[i] && candidates[i..][1..] == candidates[i + 1..];
      var effective := Least(candidates[i].contribution, CAP - score);
      if effective > 0 {
        var f := candidates[i].(contribution := effective);
        TotalAppend(factors, [f]);
        factors := factors + [f];
        score := score + effective;
      }
      i := i + 1;
    }
    assert factors + [] == factors;
  }

  lemma {:induction false} TotalAppend(a: seq<Factor>, b: seq<Factor>)
    ensures Total(a + b) == Total(a) + Total(b)
    decreases |a|
  {
    if a == [] { assert a + b == b; } else {
      assert (a + b)[1..] == a[1..] + b && (a + b)[0] == a[0];
      TotalAppend(a[1..], b);
    }
  }

  lemma {:induction false} CappedTotal(candidates: seq<Factor>, score: int)
    requires 0 <= score <= CAP && forall i :: 0 <= i < |candidates| ==> candidates[i].contribution > 0
    ensures score + Total(Capped(candidates, score)) == Least(CAP, score + Total(candidates))
    decreases |candidates|
  {
    TotalIsPositive(candidates);
    if candidates != [] && score < CAP {
      CappedTotal(candidates[1..], score + Least(candidates[0].contribution, CAP - score));
      TotalIsPositive(candidates[1..]);
    }
  }

  lemma {:induction false} TotalIsPositive(factors: seq<Factor>)
    requires forall i :: 0 <= i < |factors| ==> factors[i].contribution > 0
    ensures Total(factors) >= 0
    decreases |factors|
  {
    if factors != [] { TotalIsPositive(factors[1..]); }
  }

  lemma {:induction false} AlertFactorsTotal(ranked: seq<AlertInput>, place: nat)
    ensures Total(AlertFactors(ranked, place)) == WeightedSum(ranked, place)
    ensures forall i :: 0 <= i < |AlertFactors(ranked, place)| ==> AlertFactors(ranked, place)[i].contribution > 0
    decreases |ranked| - place
  {
    if place < |ranked| {
      AlertFactorsTotal(ranked, place + 1);
      if place >= 3 {
        NoWeightLater(ranked, place);
      } else {
        var rest := AlertFactors(ranked, place + 1);
        TotalAppend([Factor(FromAlert, ranked[place].id, Weighted(place, ranked[place].score))], rest);
        assert [] + rest == rest;
      }
    }
  }

  lemma {:induction false} NoWeightLater(ranked: seq<AlertInput>, place: nat)
    requires place >= 3
    ensures WeightedSum(ranked, place) == 0
    decreases |ranked| - place
  {
    if place < |ranked| { NoWeightLater(ranked, place + 1); }
  }

  lemma {:induction false} IncidentFactorsTotal(selected: seq<IncidentInput>)
    ensures Total(IncidentFactors(selected)) == INCIDENT_POINTS * |selected|
    ensures forall i :: 0 <= i < |IncidentFactors(selected)| ==> IncidentFactors(selected)[i].contribution > 0
    decreases |selected|
  {
    if selected != [] { IncidentFactorsTotal(selected[1..]); }
  }

  lemma CandidatesTotal(alerts: seq<AlertInput>, incidents: seq<IncidentInput>)
    ensures Total(Candidates(alerts, incidents)) ==
      WeightedSum(Ranked(alerts), 0) + INCIDENT_POINTS * Least(|incidents|, 2)
    ensures forall i :: 0 <= i < |Candidates(alerts, incidents)| ==> Candidates(alerts, incidents)[i].contribution > 0
  {
    AlertFactorsTotal(Ranked(alerts), 0);
    SortPermutes(Graver, incidents);
    IncidentFactorsTotal(Take(2, Sort(Graver, incidents)));
    TotalAppend(AlertFactors(Ranked(alerts), 0), IncidentFactors(Take(2, Sort(Graver, incidents))));
  }

  /** `calculate_endpoint_risk`: the factors add up to the score, which is the capped sum. */
  method CalculateEndpointRisk(alerts: seq<AlertInput>, incidents: seq<IncidentInput>)
    returns (score: int, level: Level, highest: Option<nat>, factors: seq<Factor>)
    ensures score == Score(alerts, |incidents|) && 0 <= score <= CAP
    ensures factors == Capped(Candidates(alerts, incidents), 0) && Total(factors) == score
    ensures level == LevelOf(score) && highest == Highest(alerts)
  {
    var reps := PickRepresentatives(alerts);
    var candidates := AlertFactors(Sort(AtLeast, reps), 0) + IncidentFactors(Take(2, Sort(Graver, incidents)));
    score, factors := Cap(candidates);
    CandidatesTotal(alerts, incidents);
    CappedTotal(candidates, 0);
    TotalIsPositive(candidates);
    level, highest := LevelOf(score), Highest(alerts);
  }
}
