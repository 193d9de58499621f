/** Detection: which rules may be loaded together, how a matching event becomes an alert and an
    incident, and the tables they are stored in. */
module Detection {
  import opened Basics
  import opened Telemetry

  datatype Severity = Low | Medium | High | Critical

  function Rank(s: Severity): nat {
    match s case Low => 0 case Medium => 1 case High => 2 case Critical => 3
  }

  datatype Correlation = Correlation(key: string, window: nat)

  /** `matches` stands for the rule's event type and conditions; `incident` is `None` when the
      rule raises no incident. */
  datatype Rule = Rule(code: string, version: int, enabled: bool, matches: Event -> bool, severity: Severity,
                       incident: Option<Correlation>)

  predicate Raising(r: Rule) { r.enabled && r.incident.Some? }

  // Loading rules.

  predicate DistinctIdentities(rules: seq<Rule>) {
    forall i, j :: 0 <= i < j < |rules| ==> (rules[i].code, rules[i].version) != (rules[j].code, rules[j].version)
  }

  predicate OneEnabledVersion(rules: seq<Rule>) {
    forall i, j :: 0 <= i < j < |rules| && rules[i].enabled && rules[j].enabled ==> rules[i].code != rules[j].code
  }

  /** Rules that share a correlation key share its window. */
  predicate OneWindowPerKey(rules: seq<Rule>) {
    forall i, j :: 0 <= i < |rules| && 0 <= j < |rules| && Raising(rules[i]) && Raising(rules[j])
      && rules[i].incident.value.key == rules[j].incident.value.key
      ==> rules[i].incident.value.window == rules[j].incident.value.window
  }

  predicate WindowsPositive(rules: seq<Rule>) {
    forall i :: 0 <= i < |rules| && Raising(rules[i]) ==> rules[i].incident.value.window >= 1
  }

  datatype LoadError = DuplicateIdentity | SeveralEnabledVersions | InconsistentWindow(key: string)

  // Python compares the length of a list with the size of its set.

  function Elements<T(==)>(s: seq<T>): set<T> { set x | x in s }

  predicate NoRepeat<T(==)>(s: seq<T>) { forall i, j :: 0 <= i < j < |s| ==> s[i] != s[j] }

  lemma {:induction false} SizeTellsRepeats<T>(s: seq<T>)
    ensures |Elements(s)| <= |s|
    ensures |Elements(s)| == |s| <==> NoRepeat(s)
    decreases |s|
  {
    if s != [] {
      var x, rest := s[0], s[1..];
      SizeTellsRepeats(rest);
      assert s == [x] + rest;
      assert Elements(s) == {x} + Elements(rest);
      if x in rest {
        assert Elements(s) == Elements(rest);
        var j :| 0 <= j < |rest| && rest[j] == x;
        assert s[0] == s[j + 1];
      } else {
        assert |Elements(s)| == 1 + |Elements(rest)|;
        assert NoRepeat(rest) ==> NoRepeat(s);
      }
    }
  }

  function Identities(rules: seq<Rule>): seq<(string, int)> {
    seq(|rules|, i requires 0 <= i < |rules| => (rules[i].code, rules[i].version))
  }

  function EnabledCodes(rules: seq<Rule>): seq<string> {
    if rules == [] then [] else (if rules[0].enabled then [rules[0].code] else []) + EnabledCodes(rules[1..])
  }

  ghost predicate HasEnabled(rules: seq<Rule>, c: string) {
    exists i :: 0 <= i < |rules| && rules[i].enabled && rules[i].code == c
  }

  lemma HasEnabledCons(rules: seq<Rule>, c: string)
    requires rules != []
    ensures HasEnabled(rules, c) <==> (rules[0].enabled && rules[0].code == c) || HasEnabled(rules[1..], c)
  {
  }

  lemma OneEnabledCons(rules: seq<Rule>)
    requires rules != []
    ensures OneEnabledVersion(rules) <==>
      OneEnabledVersion(rules[1..]) && (rules[0].enabled ==> !HasEnabled(rules[1..], rules[0].code))
  {
  }

  lemma {:induction false} EnabledCodesIn(rules: seq<Rule>, c: string)
    ensures c in EnabledCodes(rules) <==> HasEnabled(rules, c)
    decreases |rules|
  {
    if rules != [] {
      EnabledCodesIn(rules[1..], c);
      HasEnabledCons(rules, c);
    }
  }

  lemma {:induction false} EnabledCodesRepeat(rules: seq<Rule>)
    ensures NoRepeat(EnabledCodes(rules)) <==> OneEnabledVersion(rules)
    decreases |rules|
  {
    if rules != [] {
      EnabledCodesRepeat(rules[1..]);
      EnabledCodesIn(rules[1..], rules[0].code);
      OneEnabledCons(rules);
      if rules[0].enabled { NoRepeatCons(rules[0].code, EnabledCodes(rules[1..])); }
      assert [] + EnabledCodes(rules[1..]) == EnabledCodes(rules[1..]);
    }
  }

  lemma NoRepeatCons<T>(x: T, s: seq<T>)
    ensures NoRepeat([x] + s) <==> NoRepeat(s) && x !in s
  {
    var t := [x] + s;
    if x in s {
      var j :| 0 <= j < |s| && s[j] == x;
      assert t[0] == t[j + 1];
    }
    if NoRepeat(t) {
      forall i, j | 0 <= i < j < |s| ensures s[i] != s[j] { assert t[i + 1] != t[j + 1]; }
    }
  }

  predicate Uses(r: Rule, c: Correlation) { Raising(r) && r.incident.value == c }

  /** The keys seen so far, with the window of the first rule that used them. */
  ghost predicate WindowsOf(windows: map<string, nat>, rules: seq<Rule>) {
    && (forall i :: 0 <= i < |rules| && Raising(rules[i]) ==>
          var c := rules[i].incident.value; c.key in windows && windows[c.key] == c.window)
    && (forall k :: k in windows ==>
          exists i :: 0 <= i < |rules| && Uses(rules[i], Correlation(k, windows[k])))
  }

  /** The last check of `load_directory`. */
  method CheckWindows(rules: seq<Rule>) returns (error: Option<LoadError>)
    ensures error.None? <==> OneWindowPerKey(rules)
  {
    var windows: map<string, nat> := map[];
    for i := 0 to |rules|
      invariant WindowsOf(windows, rules[..i]) && OneWindowPerKey(rules[..i])
    {
      assert rules[..i + 1] == rules[..i] + [rules[i]];
      if Raising(rules[i]) {
        var c := rules[i].incident.value;
        if c.key in windows && windows[c.key] != c.window {
          var j :| 0 <= j < |rules[..i]| && Uses(rules[..i][j], Correlation(c.key, windows[c.key]));
          assert rules[j] == rules[..i][j];
          return Some(InconsistentWindow(c.key));
        }
        WindowsMore(windows, rules[..i], rules[i]);
        windows := windows[c.key := c.window];
      } else {
        WindowsSkip(windows, rules[..i], rules[i]);
      }
    }
    assert rules[..|rules|] == rules;
    return None;
  }

  /** `load_directory` accepts exactly the rule sets that are consistent. */
  method LoadDirectory(rules: seq<Rule>) returns (error: Option<LoadError>)
    ensures error.None? <==> DistinctIdentities(rules) && OneEnabledVersion(rules) && OneWindowPerKey(rules)
  {
    var identities, codes := Identities(rules), EnabledCodes(rules);
    SizeTellsRepeats(identities);
    SizeTellsRepeats(codes);
    EnabledCodesRepeat(rules);
    assert forall i :: 0 <= i < |rules| ==> identities[i] == (rules[i].code, rules[i].version);
    assert NoRepeat(identities) <==> DistinctIdentities(rules);
    if |identities| != |Elements(identities)| { return Some(DuplicateIdentity); }
    if |codes| != |Elements(codes)| { return Some(SeveralEnabledVersions); }
    error := CheckWindows(rules);
  }

  lemma WindowsMore(windows: map<string, nat>, rules: seq<Rule>, r: Rule)
    requires WindowsOf(windows, rules) && OneWindowPerKey(rules) && Raising(r)
    requires r.incident.value.key in windows ==> windows[r.incident.value.key] == r.incident.value.window
    ensures WindowsOf(windows[r.incident.value.key := r.incident.value.window], rules + [r])
    ensures OneWindowPerKey(rules + [r])
  {
    var c := r.incident.value;
    var more := windows[c.key := c.window];
    forall k | k in more
      ensures exists i :: 0 <= i < |rules + [r]| && Uses((rules + [r])[i], Correlation(k, more[k]))
    {
      if k == c.key {
        assert (rules + [r])[|rules|] == r;
      } else {
        var i :| 0 <= i < |rules| && Uses(rules[i], Correlation(k, windows[k]));
        assert (rules + [r])[i] == rules[i];
      }
    }
  }

  lemma WindowsSkip(windows: map<string, nat>, rules: seq<Rule>, r: Rule)
    requires WindowsOf(windows, rules) && OneWindowPerKey(rules) && !Raising(r)
    ensures WindowsOf(windows, rules + [r]) && OneWindowPerKey(rules + [r])
  {
    forall k | k in windows
      ensures exists i :: 0 <= i < |rules + [r]| && Uses((rules + [r])[i], Correlation(k, windows[k]))
    {
      var i :| 0 <= i < |rules| && Uses(rules[i], Correlation(k, windows[k]));
      assert (rules + [r])[i] == rules[i];
    }
  }

  // The tables.

  datatype AlertKey = AlertKey(event: int, code: string, version: int)

  datatype Alert = Alert(endpoint: int, occurredAt: nat, severity: Severity, detectedAt: int)

  datatype IncidentKey = IncidentKey(endpoint: int, key: string, start: int)

  datatype Status = Open | Closed

  datatype Incident = Incident(end: int, severity: Severity, firstDetectedAt: int, lastDetectedAt: int, status: Status,
                               closedAt: Option<int>, overridden: bool, updatedAt: int)

  /** `raised` is history: which alerts an incident has been raised for. */
  datatype State = State(alerts: map<AlertKey, Alert>, incidents: map<IncidentKey, Incident>,
                         links: set<(IncidentKey, AlertKey)>, raised: set<(IncidentKey, AlertKey)>)

  const EMPTY := State(map[], map[], {}, {})

  function AlertKeyOf(r: Rule, e: Event): AlertKey { AlertKey(e.id, r.code, r.version) }

  function Seconds(e: Event): nat { e.at / 1000 }

  /** `_window`: the start of the window the event falls into, in seconds. */
  function WindowStart(window: nat, e: Event): nat
    requires window >= 1
  {
    Seconds(e) / window * window
  }

  function IncidentKeyOf(r: Rule, e: Event): IncidentKey
    requires r.incident.Some? && r.incident.value.window >= 1
  {
    IncidentKey(e.endpoint, r.incident.value.key, WindowStart(r.incident.value.window, e))
  }

  function Worse(a: Severity, b: Severity): Severity { if Rank(b) > Rank(a) then b else a }

  // The transactions.

  datatype Op = InsertAlert(rule: Rule, event: Event, now: int)
    | RaiseIncident(rule: Rule, event: Event)
    | LinkAlert(rule: Rule, event: Event)
    | CloseExpired(now: int)
    | SetStatus(key: IncidentKey, status: Status, now: int)

  /** What the worker has established before it issues the transaction. */
  ghost predicate Ready(rules: seq<Rule>, s: State, op: Op) {
    match op
    case InsertAlert(r, e, _) => r in rules && r.enabled && r.matches(e)
    case RaiseIncident(r, e) =>
      r in rules && Raising(r) && r.incident.value.window >= 1 && r.matches(e) && AlertKeyOf(r, e) in s.alerts
    case LinkAlert(r, e) =>
      r in rules && Raising(r) && r.incident.value.window >= 1 && (IncidentKeyOf(r, e), AlertKeyOf(r, e)) in s.raised
    case CloseExpired(_) => true
    case SetStatus(k, _, _) => k in s.incidents
  }

  function NewIncident(window: nat, start: int, severity: Severity, at: int): Incident {
    Incident(start + window, severity, at, at, Open, None, false, at)
  }

  /** The conflict clause of the upsert. */
  function Absorb(i: Incident, end: int, severity: Severity, at: int): Incident {
    i.(end := Most(i.end, end), severity := Worse(i.severity, severity), lastDetectedAt := Most(i.lastDetectedAt, at),
       updatedAt := Most(i.updatedAt, at))
  }

  /** The incident after it was raised by rule `r`; `at` is the detection time of the stored alert. */
  function Raised(s: State, k: IncidentKey, r: Rule, at: int): Incident
    requires r.incident.Some?
  {
    var window := r.incident.value.window;
    if k in s.incidents then Absorb(s.incidents[k], k.start + window, r.severity, at)
    else NewIncident(window, k.start, r.severity, at)
  }

  predicate Expirable(i: Incident, now: int) {
    i.status.Open? && !i.overridden && i.end <= now
  }

  function Expired(i: Incident, now: int): Incident {
    if Expirable(i, now) then i.(status := Closed, closedAt := Some(i.end), updatedAt := now) else i
  }

  function Overridden(i: Incident, status: Status, now: int): Incident {
    if i.status == status then i
    else
      var closedAt := if status.Closed? then Some(i.end) else None;
      i.(status := status, closedAt := closedAt, overridden := true, updatedAt := now)
  }

  function Apply(s: State, op: Op): State {
    match op
    case InsertAlert(r, e, now) =>
      if AlertKeyOf(r, e) in s.alerts then s
      else s.(alerts := s.alerts[AlertKeyOf(r, e) := Alert(e.endpoint, e.at, r.severity, now)])
    case RaiseIncident(r, e) =>
      if !(r.incident.Some? && r.incident.value.window >= 1 && AlertKeyOf(r, e) in s.alerts) then s
      else var k := IncidentKeyOf(r, e);
        s.(incidents := s.incidents[k := Raised(s, k, r, s.alerts[AlertKeyOf(r, e)].detectedAt)],
           raised := s.raised + {(k, AlertKeyOf(r, e))})
    case LinkAlert(r, e) =>
      if !(r.incident.Some? && r.incident.value.window >= 1) then s
      else s.(links := s.links + {(IncidentKeyOf(r, e), AlertKeyOf(r, e))})
    case CloseExpired(now) => s.(incidents := map k | k in s.incidents :: Expired(s.incidents[k], now))
    case SetStatus(k, status, now) =>
      if k !in s.incidents then s else s.(incidents := s.incidents[k := Overridden(s.incidents[k], status, now)])
  }

  ghost predicate IsRun(rules: seq<Rule>, s: State, ops: seq<Op>)
    decreases |ops|
  {
    ops == [] || (Ready(rules, s, ops[0]) && IsRun(rules, Apply(s, ops[0]), ops[1..]))
  }

  function Run(s: State, ops: seq<Op>): State
    decreases |ops|
  {
    if ops == [] then s else Run(Apply(s, ops[0]), ops[1..])
  }

  // The worker.

  function RuleOps(r: Rule, e: Event, now: int): seq<Op> {
    if !(r.enabled && r.matches(e)) then []
    else [InsertAlert(r, e, now)] + if r.incident.Some? then [RaiseIncident(r, e), LinkAlert(r, e)] else []
  }

  /** The transactions of one message, in order. */
  function MessageOps(rules: seq<Rule>, e: Event, now: int): seq<Op> {
    if rules == [] then [] else RuleOps(rules[0], e, now) + MessageOps(rules[1..], e, now)
  }

  lemma {:induction false} RunConcat(s: State, a: seq<Op>, b: seq<Op>)
    ensures Run(s, a + b) == Run(Run(s, a), b)
    decreases |a|
  {
    if a == [] { assert a + b == b; } else {
      assert (a + b)[1..] == a[1..] + b && (a + b)[0] == a[0];
      RunConcat(Apply(s, a[0]), a[1..], b);
    }
  }

  lemma RunThree(s: State, a: Op, b: Op, c: Op)
    ensures Run(s, [a, b, c]) == Apply(Apply(Apply(s, a), b), c)
  {
    assert [a, b, c][1..] == [b, c] && [b, c][1..] == [c] && [c][1..] == [];
    assert Run(Apply(Apply(s, a), b), [c]) == Apply(Apply(Apply(s, a), b), c);
    assert Run(Apply(s, a), [b, c]) == Run(Apply(Apply(s, a), b), [c]);
  }

  // What the tables keep.

  ghost predicate IncidentGrows(i: Incident, j: Incident) {
    i.end <= j.end && Rank(i.severity) <= Rank(j.severity) && i.lastDetectedAt <= j.lastDetectedAt
  }

  ghost predicate Grows(s: State, t: State) {
    && (forall a :: a in s.alerts ==> a in t.alerts && t.alerts[a] == s.alerts[a])
    && (forall k :: k in s.incidents ==> k in t.incidents && IncidentGrows(s.incidents[k], t.incidents[k]))
    && s.links <= t.links && s.raised <= t.raised
  }

  lemma ApplyGrows(s: State, op: Op)
    ensures Grows(s, Apply(s, op))
  {
  }

  /** Keys refer to stored rows, a closed incident has a closing time no later than its end,
      and an incident has seen the detections it was raised for. */
  ghost predicate StoreInv(s: State) {
    && (forall k :: k in s.incidents ==> IncidentInv(s.incidents[k]))
    && (forall p :: p in s.links ==> p.0 in s.incidents && p.1 in s.alerts)
    && (forall p :: p in s.raised ==>
          p.0 in s.incidents && p.1 in s.alerts && s.alerts[p.1].detectedAt <= s.incidents[p.0].lastDetectedAt)
  }

  predicate IncidentInv(i: Incident) {
    && (i.status.Closed? <==> i.closedAt.Some?)
    && (i.closedAt.Some? ==> i.closedAt.value <= i.end)
    && i.firstDetectedAt <= i.lastDetectedAt
  }

  /** Rows that refer to each other exist: the foreign keys of `incident_alerts`. */
  ghost predicate KeysExist(s: State, op: Op) {
    op.LinkAlert? && op.rule.incident.Some? && op.rule.incident.value.window >= 1 ==>
      IncidentKeyOf(op.rule, op.event) in s.incidents && AlertKeyOf(op.rule, op.event) in s.alerts
  }

  lemma ApplyKeepsStoreInv(s: State, op: Op)
    requires StoreInv(s) && KeysExist(s, op)
    ensures StoreInv(Apply(s, op)) && Grows(s, Apply(s, op))
  {
    ApplyGrows(s, op);
  }

  /** Same status, closing time, mark and first detection. */
  predicate SameStanding(i: Incident, j: Incident) {
    && j.status == i.status && j.closedAt == i.closedAt && j.overridden == i.overridden
    && j.firstDetectedAt == i.firstDetectedAt
  }

  /** Same window, severity and detections. */
  predicate SameEvidence(i: Incident, j: Incident) {
    && j.end == i.end && j.severity == i.severity
    && j.firstDetectedAt == i.firstDetectedAt && j.lastDetectedAt == i.lastDetectedAt
  }

  /** `j` is not below `i`, nor below the new end, severity and detection. */
  ghost predicate Upper(i: Incident, j: Incident, end: int, severity: Severity, at: int) {
    IncidentGrows(i, j) && end <= j.end && Rank(severity) <= Rank(j.severity) && at <= j.lastDetectedAt
  }

  ghost predicate LeastUpper(i: Incident, j: Incident, end: int, severity: Severity, at: int) {
    Upper(i, j, end, severity, at) && forall u :: Upper(i, u, end, severity, at) ==> IncidentGrows(j, u)
  }

  ghost predicate OnlyIncident(s: State, t: State, k: IncidentKey) {
    t.alerts == s.alerts && t.links == s.links && t.incidents - {k} == s.incidents - {k}
  }

  /** The message has left its alert, incident and link for the rule. */
  predicate Handled(s: State, r: Rule, e: Event) {
    r.enabled && r.matches(e) ==>
      && AlertKeyOf(r, e) in s.alerts
      && (r.incident.Some? && r.incident.value.window >= 1 ==>
            IncidentKeyOf(r, e) in s.incidents && (IncidentKeyOf(r, e), AlertKeyOf(r, e)) in s.links)
  }

  lemma GrowsThrough(s: State, t: State, u: State)
    requires Grows(s, t) && Grows(t, u)
    ensures Grows(s, u)
  {
  }

  /** The first `n` rules are handled. */
  ghost predicate HandledUpTo(s: State, rules: seq<Rule>, n: nat, e: Event) {
    forall i :: 0 <= i < n && i < |rules| ==> Handled(s, rules[i], e)
  }

  lemma HandledOneMore(s: State, t: State, rules: seq<Rule>, n: nat, e: Event)
    requires n < |rules| && HandledUpTo(s, rules, n, e) && Grows(s, t) && Handled(t, rules[n], e)
    ensures HandledUpTo(t, rules, n + 1, e)
  {
    forall i | 0 <= i < n ensures Handled(t, rules[i], e) {
      assert Handled(s, rules[i], e);
    }
  }

  class DetectionStore {
    var alerts: map<AlertKey, Alert>
    var incidents: map<IncidentKey, Incident>
    var links: set<(IncidentKey, AlertKey)>
    ghost var raised: set<(IncidentKey, AlertKey)>

    ghost function View(): State reads this { State(alerts, incidents, links, raised) }

    ghost predicate Valid() reads this { StoreInv(View()) }

    constructor ()
      ensures Valid() && View() == EMPTY
    {
      alerts, incidents, links, raised := map[], map[], {}, {};
    }

    /** `AlertRepository.insert_if_absent`: the stored alert keeps its first detection time. */
    method InsertIfAbsent(r: Rule, e: Event, now: int) returns (stored: Alert)
      requires Valid()
      modifies this
      ensures View() == Apply(old(View()), InsertAlert(r, e, now))
      ensures Valid() && Grows(old(View()), View())
      ensures AlertKeyOf(r, e) in alerts && stored == alerts[AlertKeyOf(r, e)]
      ensures AlertKeyOf(r, e) in old(alerts) ==> View() == old(View())
      ensures AlertKeyOf(r, e) !in old(alerts) ==> stored == Alert(e.endpoint, e.at, r.severity, now)
      ensures alerts - {AlertKeyOf(r, e)} == old(alerts) - {AlertKeyOf(r, e)} && incidents == old(incidents)
    {
      ApplyKeepsStoreInv(View(), InsertAlert(r, e, now));
      var k := AlertKeyOf(r, e);
      if k !in alerts { alerts := alerts[k := Alert(e.endpoint, e.at, r.severity, now)]; }
      stored := alerts[k];
    }

    /** `IncidentRepository.upsert`: a known incident grows just as far as the alert needs and keeps
        its status, also a manual one; a new incident is open with the alert's own values. */
    method Upsert(r: Rule, e: Event, stored: Alert) returns (k: IncidentKey)
      requires Valid()
      requires r.incident.Some? && r.incident.value.window >= 1
      requires AlertKeyOf(r, e) in alerts && stored == alerts[AlertKeyOf(r, e)]
      modifies this
      ensures View() == Apply(old(View()), RaiseIncident(r, e)) && k == IncidentKeyOf(r, e)
      ensures Valid() && Grows(old(View()), View()) && OnlyIncident(old(View()), View(), k)
      ensures k in incidents
      ensures k in old(incidents) ==> SameStanding(old(incidents)[k], incidents[k])
      ensures k in old(incidents) ==>
        LeastUpper(old(incidents)[k], incidents[k], k.start + r.incident.value.window, r.severity, stored.detectedAt)
      ensures k !in old(incidents) ==>
        && incidents[k].status == Open && !incidents[k].overridden
        && incidents[k].end == k.start + r.incident.value.window && incidents[k].severity == r.severity
        && incidents[k].firstDetectedAt == stored.detectedAt == incidents[k].lastDetectedAt
    {
      ApplyKeepsStoreInv(View(), RaiseIncident(r, e));
      var c := r.incident.value;
      k := IncidentKey(e.endpoint, c.key, WindowStart(c.window, e));
      if k in incidents {
        var i := incidents[k];
        incidents := incidents[k := Incident(
          Most(i.end, k.start + c.window), Worse(i.severity, r.severity), i.firstDetectedAt,
          Most(i.lastDetectedAt, stored.detectedAt), i.status, i.closedAt, i.overridden,
          Most(i.updatedAt, stored.detectedAt))];
      } else {
        incidents := incidents[k := NewIncident(c.window, k.start, r.severity, stored.detectedAt)];
      }
      raised := raised + {(k, AlertKeyOf(r, e))};
    }

    /** `IncidentRepository.link_alert`: the pair is linked, once. */
    method Link(r: Rule, e: Event, k: IncidentKey)
      requires Valid()
      requires r.incident.Some? && r.incident.value.window >= 1 && k == IncidentKeyOf(r, e)
      requires k in incidents && AlertKeyOf(r, e) in alerts
      modifies this
      ensures View() == Apply(old(View()), LinkAlert(r, e))
      ensures Valid() && Grows(old(View()), View()) && alerts == old(alerts) && incidents == old(incidents)
      ensures (k, AlertKeyOf(r, e)) in links
      ensures forall p :: p in links && p != (k, AlertKeyOf(r, e)) ==> p in old(links)
      ensures (k, AlertKeyOf(r, e)) in old(links) ==> View() == old(View())
    {
      ApplyKeepsStoreInv(View(), LinkAlert(r, e));
      links := links + {(k, AlertKeyOf(r, e))};
    }

    /** `IncidentRepository.close_expired`: how many incidents were closed. Exactly the open ones
        without a manual status whose window has ended are, at the end of their window. */
    method CloseExpiredIncidents(now: int) returns (count: nat)
      requires Valid()
      modifies this
      ensures View() == Apply(old(View()), CloseExpired(now))
      ensures Valid() && Grows(old(View()), View()) && alerts == old(alerts) && links == old(links)
      ensures incidents.Keys == old(incidents).Keys
      ensures count == |set k | k in old(incidents) && Expirable(old(incidents)[k], now)|
      ensures forall k :: k in incidents ==> !Expirable(incidents[k], now)
      ensures forall k :: k in incidents && !Expirable(old(incidents)[k], now) ==> incidents[k] == old(incidents)[k]
      ensures forall k :: k in incidents && Expirable(old(incidents)[k], now) ==>
        && incidents[k].status == Closed && incidents[k].closedAt == Some(incidents[k].end)
        && !incidents[k].overridden && SameEvidence(old(incidents)[k], incidents[k])
    {
      count := |set k | k in incidents && Expirable(incidents[k], now)|;
      incidents := map k | k in incidents :: Expired(incidents[k], now);
      assert View() == Apply(old(View()), CloseExpired(now));
      ApplyKeepsStoreInv(old(View()), CloseExpired(now));
    }

    /** `IncidentRepository.update_status_with_audit`; false when there is no such incident. A status
        that is already there leaves no mark; a changed one is closed to later expiry. */
    method UpdateStatus(k: IncidentKey, status: Status, now: int) returns (found: bool)
      requires Valid()
      modifies this
      ensures View() == Apply(old(View()), SetStatus(k, status, now)) && found == (k in old(incidents))
      ensures Valid() && Grows(old(View()), View()) && OnlyIncident(old(View()), View(), k)
      ensures !found || old(incidents)[k].status == status ==> View() == old(View())
      ensures found ==> k in incidents && incidents[k].status == status && SameEvidence(old(incidents)[k], incidents[k])
      ensures found && old(incidents)[k].status != status ==>
        incidents[k].overridden && forall later :: !Expirable(incidents[k], later)
    {
      found := k in incidents;
      if found && incidents[k].status != status {
        incidents := incidents[k := Overridden(incidents[k], status, now)];
      }
      assert found ==> incidents == old(incidents)[k := Overridden(old(incidents)[k], status, now)];
      assert View() == Apply(old(View()), SetStatus(k, status, now));
      ApplyKeepsStoreInv(old(View()), SetStatus(k, status, now));
    }

    method ProcessRule(r: Rule, e: Event, now: int)
      requires Valid()
      requires Raising(r) ==> r.incident.value.window >= 1
      modifies this
      ensures View() == Run(old(View()), RuleOps(r, e, now))
      ensures Valid() && Grows(old(View()), View()) && Handled(View(), r, e)
    {
      if r.enabled && r.matches(e) {
        var stored := InsertIfAbsent(r, e, now);
        if r.incident.Some? {
          var k := Upsert(r, e, stored);
          Link(r, e, k);
          assert RuleOps(r, e, now) == [InsertAlert(r, e, now), RaiseIncident(r, e), LinkAlert(r, e)];
          RunThree(old(View()), InsertAlert(r, e, now), RaiseIncident(r, e), LinkAlert(r, e));
        }
      }
    }

    /** The evaluation loop of `DetectionWorker._process`. */
    method Process(rules: seq<Rule>, e: Event, now: int)
      requires Valid()
      requires WindowsPositive(rules)
      modifies this
      ensures View() == Run(old(View()), MessageOps(rules, e, now))
      ensures Valid() && Grows(old(View()), View())
      ensures HandledUpTo(View(), rules, |rules|, e)
    {
      for i := 0 to |rules|
        invariant Valid() && Grows(old(View()), View())
        invariant HandledUpTo(View(), rules, i, e)
        invariant Run(View(), MessageOps(rules[i..], e, now)) == Run(old(View()), MessageOps(rules, e, now))
      {
        assert rules[i..][0] == rules[i] && rules[i..][1..] == rules[i + 1..];
        RunConcat(View(), RuleOps(rules[i], e, now), MessageOps(rules[i + 1..], e, now));
        ghost var before := View();
        ProcessRule(rules[i], e, now);
        GrowsThrough(old(View()), before, View());
        HandledOneMore(before, View(), rules, i, e);
      }
    }
  }
}
