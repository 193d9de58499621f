/** Detection over whole runs: reprocessing a message changes nothing, incident windows are
    disjoint and hold the events linked to them, and an incident's severity and last detection
    do not depend on the order of processing. */
module DetectionTheorems {
  import opened Basics
  import opened Telemetry
  import opened Detection

  predicate WorkerOp(op: Op) { op.InsertAlert? || op.RaiseIncident? || op.LinkAlert? }

  // Nothing the worker stores is ever taken back.

  lemma {:induction false} RunGrows(s: State, ops: seq<Op>)
    ensures Grows(s, Run(s, ops))
    decreases |ops|
  {
    if ops != [] {
      ApplyGrows(s, ops[0]);
      RunGrows(Apply(s, ops[0]), ops[1..]);
    }
  }

  // A transaction that has happened once.

  /** What the transaction leaves behind. */
  ghost predicate Committed(s: State, op: Op) {
    match op
    case InsertAlert(r, e, _) => AlertKeyOf(r, e) in s.alerts
    case RaiseIncident(r, e) =>
      && r.incident.Some? && r.incident.value.window >= 1 && AlertKeyOf(r, e) in s.alerts
      && var k, a := IncidentKeyOf(r, e), s.alerts[AlertKeyOf(r, e)];
        && (k, AlertKeyOf(r, e)) in s.raised && k in s.incidents
        && s.incidents[k].end >= k.start + r.incident.value.window
        && Rank(s.incidents[k].severity) >= Rank(r.severity) && s.incidents[k].lastDetectedAt >= a.detectedAt
    case LinkAlert(r, e) =>
      r.incident.Some? && r.incident.value.window >= 1 && (IncidentKeyOf(r, e), AlertKeyOf(r, e)) in s.links
    case _ => true
  }

  lemma Commits(rules: seq<Rule>, s: State, op: Op)
    requires Ready(rules, s, op)
    ensures Committed(Apply(s, op), op)
  {
  }

  lemma CommittedStays(s: State, t: State, op: Op)
    requires Committed(s, op) && Grows(s, t)
    ensures Committed(t, op)
  {
  }

  /** Equal in everything but the time of the last update of an incident. */
  ghost predicate SameButStamp(s: State, t: State) {
    && s.alerts == t.alerts && s.links == t.links && s.raised == t.raised && s.incidents.Keys == t.incidents.Keys
    && forall k :: k in s.incidents ==> t.incidents[k] == s.incidents[k].(updatedAt := t.incidents[k].updatedAt)
  }

  /** The same transaction, issued again; only the time of processing may differ. */
  ghost predicate SameOp(op: Op, again: Op) {
    && WorkerOp(op)
    && (|| again == op
        || (op.InsertAlert? && again.InsertAlert? && again.rule == op.rule && again.event == op.event))
  }

  lemma AgainIsNoOp(s: State, op: Op, again: Op)
    requires Committed(s, op) && SameOp(op, again)
    ensures SameButStamp(s, Apply(s, again)) && Committed(s, again)
  {
  }

  /** Raising again is a complete no-op exactly when the incident's last update is not older
      than the alert's detection. */
  lemma RaisingAgainKeepsStampIff(s: State, r: Rule, e: Event)
    requires Committed(s, RaiseIncident(r, e))
    ensures Apply(s, RaiseIncident(r, e)) == s <==>
      s.incidents[IncidentKeyOf(r, e)].updatedAt >= s.alerts[AlertKeyOf(r, e)].detectedAt
  {
  }

  lemma {:induction false} CommittedInRun(rules: seq<Rule>, s: State, ops: seq<Op>, i: nat)
    requires IsRun(rules, s, ops) && i < |ops|
    ensures Committed(Run(s, ops), ops[i])
    decreases |ops|
  {
    if i == 0 {
      Commits(rules, s, ops[0]);
      RunGrows(Apply(s, ops[0]), ops[1..]);
      CommittedStays(Apply(s, ops[0]), Run(s, ops), ops[0]);
    } else {
      CommittedInRun(rules, Apply(s, ops[0]), ops[1..], i - 1);
    }
  }

  /** A worker transaction that occurred anywhere in a run changes nothing when it is issued
      again at the end, whatever happened in between: other messages, expiry, manual changes. */
  lemma RepeatIsNoOp(rules: seq<Rule>, s: State, ops: seq<Op>, i: nat, again: Op)
    requires IsRun(rules, s, ops) && i < |ops| && SameOp(ops[i], again)
    ensures SameButStamp(Run(s, ops), Apply(Run(s, ops), again))
  {
    CommittedInRun(rules, s, ops, i);
    AgainIsNoOp(Run(s, ops), ops[i], again);
  }

  // A message that is delivered again.

  ghost predicate AllCommitted(s: State, ops: seq<Op>) {
    forall i :: 0 <= i < |ops| ==> WorkerOp(ops[i]) && Committed(s, ops[i])
  }

  lemma {:induction false} CommittedOpsAreNoOps(s: State, ops: seq<Op>)
    requires AllCommitted(s, ops)
    ensures SameButStamp(s, Run(s, ops))
    decreases |ops|
  {
    if ops != [] {
      var t := Apply(s, ops[0]);
      AgainIsNoOp(s, ops[0], ops[0]);
      ApplyGrows(s, ops[0]);
      forall i | 0 <= i < |ops[1..]| ensures WorkerOp(ops[1..][i]) && Committed(t, ops[1..][i]) {
        assert ops[1..][i] == ops[i + 1];
        CommittedStays(s, t, ops[i + 1]);
      }
      CommittedOpsAreNoOps(t, ops[1..]);
    }
  }

  lemma {:induction false} SameMessageOps(rules: seq<Rule>, e: Event, now: int, later: int)
    ensures var first, again := MessageOps(rules, e, now), MessageOps(rules, e, later);
      |first| == |again| && forall i :: 0 <= i < |first| ==> SameOp(first[i], again[i])
    decreases |rules|
  {
    if rules != [] { SameMessageOps(rules[1..], e, now, later); }
  }

  /** Once every transaction of a message has occurred in a run, in one attempt or spread over
      several attempts that broke off, processing the message again changes nothing. */
  lemma ReplayIsNoOp(rules: seq<Rule>, s: State, ops: seq<Op>, e: Event, now: int, later: int)
    requires IsRun(rules, s, ops)
    requires forall op :: op in MessageOps(rules, e, now) ==> exists i :: 0 <= i < |ops| && SameOp(ops[i], op)
    ensures SameButStamp(Run(s, ops), Run(Run(s, ops), MessageOps(rules, e, later)))
  {
    var t := Run(s, ops);
    var first, again := MessageOps(rules, e, now), MessageOps(rules, e, later);
    SameMessageOps(rules, e, now, later);
    forall j | 0 <= j < |again| ensures WorkerOp(again[j]) && Committed(t, again[j]) {
      assert first[j] in first;
      var i :| 0 <= i < |ops| && SameOp(ops[i], first[j]);
      CommittedInRun(rules, s, ops, i);
      AgainIsNoOp(t, ops[i], first[j]);
      AgainIsNoOp(t, first[j], again[j]);
    }
    CommittedOpsAreNoOps(t, again);
  }

  /** The worker never changes the status of an incident that exists: a late alert does not
      reopen it, and expiry never touches a status that was set by hand. */
  lemma StatusIsLeftAlone(s: State, op: Op, k: IncidentKey)
    requires k in s.incidents && (WorkerOp(op) || (op.CloseExpired? && s.incidents[k].overridden))
    ensures var i, j := s.incidents[k], Apply(s, op).incidents[k];
      SameStanding(i, j)
  {
  }

  // Windows.

  ghost predicate HasWindow(rules: seq<Rule>, key: string, window: nat) {
    exists i :: 0 <= i < |rules| && Raising(rules[i]) && rules[i].incident.value == Correlation(key, window)
  }

  ghost predicate Loaded(rules: seq<Rule>) { OneWindowPerKey(rules) && WindowsPositive(rules) }

  lemma WindowIsUnique(rules: seq<Rule>, key: string, v: nat, w: nat)
    requires Loaded(rules) && HasWindow(rules, key, v) && HasWindow(rules, key, w)
    ensures v == w >= 1
  {
  }

  /** The incident spans one aligned window of its key; it is closed exactly when it has a
      closing time, which is the end of the window. */
  ghost predicate Framed(rules: seq<Rule>, k: IncidentKey, i: Incident) {
    && (exists w: nat :: HasWindow(rules, k.key, w) && w >= 1 && k.start % w == 0 && i.end == k.start + w)
    && (i.status.Closed? <==> i.closedAt.Some?) && (i.closedAt.Some? ==> i.closedAt.value == i.end)
  }

  ghost predicate FrameInv(rules: seq<Rule>, s: State) {
    forall k :: k in s.incidents ==> Framed(rules, k, s.incidents[k])
  }

  /** Events are identified by their identifier. */
  predicate Genuine(known: int -> Event, op: Op) { WorkerOp(op) ==> known(op.event.id) == op.event }

  ghost predicate AlertInv(known: int -> Event, s: State) {
    forall a :: a in s.alerts ==>
      s.alerts[a].endpoint == known(a.event).endpoint && s.alerts[a].occurredAt == known(a.event).at
  }

  /** The alert's event lies in the incident's window, on the incident's endpoint. */
  ghost predicate Inside(s: State, k: IncidentKey, a: AlertKey) {
    && k in s.incidents && a in s.alerts && s.alerts[a].endpoint == k.endpoint
    && k.start <= s.alerts[a].occurredAt / 1000 < s.incidents[k].end
  }

  ghost predicate MemberInv(s: State) {
    s.links <= s.raised && forall p :: p in s.raised ==> Inside(s, p.0, p.1)
  }

  ghost predicate Inv(rules: seq<Rule>, known: int -> Event, s: State) {
    FrameInv(rules, s) && AlertInv(known, s) && MemberInv(s)
  }

  lemma InWindow(w: nat, e: Event)
    requires w >= 1
    ensures WindowStart(w, e) % w == 0 && WindowStart(w, e) <= Seconds(e) < WindowStart(w, e) + w
  {
    var q := Seconds(e) / w;
    assert Seconds(e) == q * w + Seconds(e) % w;
    MultipleOf(q, w);
  }

  lemma MultiplesGrow(a: int, b: int, w: int)
    requires w >= 1
    ensures a >= b ==> a * w >= b * w
  {
  }

  lemma MultipleOf(q: int, w: int)
    requires w >= 1
    ensures (q * w) % w == 0
  {
    var x := q * w;
    var d := q - x / w;
    assert d * w == x % w;
    MultiplesGrow(d, 1, w);
    MultiplesGrow(-1, d, w);
  }

  lemma RaisedIsFramed(rules: seq<Rule>, s: State, r: Rule, e: Event)
    requires Loaded(rules) && FrameInv(rules, s) && Ready(rules, s, RaiseIncident(r, e))
    ensures var k := IncidentKeyOf(r, e);
      Framed(rules, k, Raised(s, k, r, s.alerts[AlertKeyOf(r, e)].detectedAt))
      && Raised(s, k, r, s.alerts[AlertKeyOf(r, e)].detectedAt).end == k.start + r.incident.value.window
  {
    var c, k := r.incident.value, IncidentKeyOf(r, e);
    InWindow(c.window, e);
    assert HasWindow(rules, c.key, c.window);
    if k in s.incidents {
      var w: nat :| HasWindow(rules, k.key, w) && w >= 1 && k.start % w == 0 && s.incidents[k].end == k.start + w;
      WindowIsUnique(rules, c.key, w, c.window);
    }
  }

  lemma FrameKept(rules: seq<Rule>, s: State, op: Op)
    requires Loaded(rules) && FrameInv(rules, s) && Ready(rules, s, op)
    ensures FrameInv(rules, Apply(s, op))
  {
    if op.RaiseIncident? { RaisedIsFramed(rules, s, op.rule, op.event); }
  }

  lemma AlertsKept(known: int -> Event, s: State, op: Op)
    requires AlertInv(known, s) && Genuine(known, op)
    ensures AlertInv(known, Apply(s, op))
  {
  }

  lemma MembersStay(s: State, t: State)
    requires MemberInv(s) && Grows(s, t)
    ensures forall p :: p in s.raised ==> Inside(t, p.0, p.1)
  {
  }

  lemma MembersKept(rules: seq<Rule>, known: int -> Event, s: State, op: Op)
    requires Loaded(rules) && Inv(rules, known, s) && Ready(rules, s, op) && Genuine(known, op)
    ensures MemberInv(Apply(s, op))
  {
    ApplyGrows(s, op);
    MembersStay(s, Apply(s, op));
    if op.RaiseIncident? {
      RaisedIsFramed(rules, s, op.rule, op.event);
      InWindow(op.rule.incident.value.window, op.event);
    }
  }

  lemma {:induction false} RunKeepsInv(rules: seq<Rule>, known: int -> Event, s: State, ops: seq<Op>)
    requires Loaded(rules) && Inv(rules, known, s) && IsRun(rules, s, ops)
    requires forall i :: 0 <= i < |ops| ==> Genuine(known, ops[i])
    ensures Inv(rules, known, Run(s, ops))
    decreases |ops|
  {
    if ops != [] {
      FrameKept(rules, s, ops[0]);
      AlertsKept(known, s, ops[0]);
      MembersKept(rules, known, s, ops[0]);
      RunKeepsInv(rules, known, Apply(s, ops[0]), ops[1..]);
    }
  }

  lemma MultiplesApart(a: int, b: int, w: int)
    requires w >= 1 && a % w == 0 && b % w == 0 && a < b
    ensures a + w <= b
  {
    var q, r := a / w, b / w;
    assert a == q * w && b == r * w;
    if q < r {
      Scale(w, q + 1, r);
      assert (q + 1) * w == q * w + w;
    } else {
      Scale(w, r, q);
    }
  }

  /** In every state a run can reach, the incidents of one endpoint and key have disjoint
      windows, and each linked alert's event lies in the window of its incident. */
  lemma ReachedIncidents(rules: seq<Rule>, known: int -> Event, ops: seq<Op>, j: IncidentKey, k: IncidentKey)
    requires Loaded(rules) && IsRun(rules, EMPTY, ops) && forall i :: 0 <= i < |ops| ==> Genuine(known, ops[i])
    ensures var s := Run(EMPTY, ops);
      && (forall p :: p in s.links ==> Inside(s, p.0, p.1))
      && (j in s.incidents && k in s.incidents && j.endpoint == k.endpoint && j.key == k.key && j.start < k.start
          ==> s.incidents[j].end <= k.start)
  {
    RunKeepsInv(rules, known, EMPTY, ops);
    var s := Run(EMPTY, ops);
    if j in s.incidents && k in s.incidents && j.endpoint == k.endpoint && j.key == k.key && j.start < k.start {
      assert Framed(rules, j, s.incidents[j]) && Framed(rules, k, s.incidents[k]);
      var v: nat :| HasWindow(rules, j.key, v) && v >= 1 && j.start % v == 0 && s.incidents[j].end == j.start + v;
      var w: nat :| HasWindow(rules, k.key, w) && w >= 1 && k.start % w == 0 && s.incidents[k].end == k.start + w;
      WindowIsUnique(rules, j.key, v, w);
      MultiplesApart(j.start, k.start, w);
    }
  }

  /** Two matches share an incident if and only if endpoint and key agree and their events fall
      into the same window. */
  lemma SharedIncidentIff(rules: seq<Rule>, q: Rule, d: Event, r: Rule, e: Event)
    requires Loaded(rules) && q in rules && r in rules && Raising(q) && Raising(r)
    requires q.incident.value.window >= 1 && r.incident.value.window >= 1
    ensures IncidentKeyOf(q, d) == IncidentKeyOf(r, e) <==>
      d.endpoint == e.endpoint && q.incident.value.key == r.incident.value.key
      && Seconds(d) / q.incident.value.window == Seconds(e) / r.incident.value.window
  {
  }

  // Severity and last detection.

  /** The incident shows the worst severity and the last detection of the alerts it was raised
      for. */
  ghost predicate Highest(s: State, k: IncidentKey, i: Incident) {
    && (forall a :: (k, a) in s.raised ==>
          && a in s.alerts && Rank(s.alerts[a].severity) <= Rank(i.severity)
          && s.alerts[a].detectedAt <= i.lastDetectedAt)
    && (exists a :: (k, a) in s.raised && a in s.alerts && s.alerts[a].severity == i.severity)
    && (exists a :: (k, a) in s.raised && a in s.alerts && s.alerts[a].detectedAt == i.lastDetectedAt)
  }

  ghost predicate HighestInv(s: State) {
    && (forall p :: p in s.raised ==> p.0 in s.incidents && p.1 in s.alerts)
    && forall k :: k in s.incidents ==> Highest(s, k, s.incidents[k])
  }

  /** An operation that raises nothing keeps the two values. */
  ghost predicate KeepsHighest(s: State, t: State) {
    && t.raised == s.raised && t.incidents.Keys == s.incidents.Keys
    && (forall a :: a in s.alerts ==> a in t.alerts && t.alerts[a] == s.alerts[a])
    && forall k :: k in s.incidents ==>
         && t.incidents[k].severity == s.incidents[k].severity
         && t.incidents[k].lastDetectedAt == s.incidents[k].lastDetectedAt
  }

  lemma HighestAfterOther(s: State, t: State, k: IncidentKey)
    requires HighestInv(s) && KeepsHighest(s, t) && k in s.incidents
    ensures Highest(t, k, t.incidents[k])
  {
  }

  /** A stored alert has the severity of its rule. */
  ghost predicate SeverityInv(rules: seq<Rule>, s: State) {
    forall a, r :: a in s.alerts && r in rules && r.code == a.code && r.version == a.version ==>
      s.alerts[a].severity == r.severity
  }

  lemma SeverityKept(rules: seq<Rule>, s: State, op: Op)
    requires DistinctIdentities(rules) && SeverityInv(rules, s) && Ready(rules, s, op)
    ensures SeverityInv(rules, Apply(s, op))
  {
  }

  lemma HighestAfterRaise(s: State, t: State, k: IncidentKey, b: AlertKey, r: Rule)
    requires HighestInv(s) && b in s.alerts && t.alerts == s.alerts && t.raised == s.raised + {(k, b)}
    requires r.incident.Some? && s.alerts[b].severity == r.severity
    requires t.incidents == s.incidents[k := Raised(s, k, r, s.alerts[b].detectedAt)]
    ensures Highest(t, k, t.incidents[k])
  {
  }

  lemma HighestKept(rules: seq<Rule>, s: State, op: Op)
    requires HighestInv(s) && SeverityInv(rules, s) && Ready(rules, s, op)
    ensures HighestInv(Apply(s, op))
  {
    var t := Apply(s, op);
    if op.RaiseIncident? {
      var k, b := IncidentKeyOf(op.rule, op.event), AlertKeyOf(op.rule, op.event);
      HighestAfterRaise(s, t, k, b, op.rule);
      forall j | j in t.incidents && j != k ensures Highest(t, j, t.incidents[j]) {
        assert Highest(s, j, s.incidents[j]);
        assert forall a :: (j, a) in t.raised <==> (j, a) in s.raised;
      }
    } else {
      assert KeepsHighest(s, t);
      forall j | j in t.incidents ensures Highest(t, j, t.incidents[j]) { HighestAfterOther(s, t, j); }
    }
  }

  lemma {:induction false} RunKeepsHighest(rules: seq<Rule>, s: State, ops: seq<Op>)
    requires DistinctIdentities(rules) && SeverityInv(rules, s) && HighestInv(s) && IsRun(rules, s, ops)
    ensures HighestInv(Run(s, ops))
    decreases |ops|
  {
    if ops != [] {
      HighestKept(rules, s, ops[0]);
      SeverityKept(rules, s, ops[0]);
      RunKeepsHighest(rules, Apply(s, ops[0]), ops[1..]);
    }
  }

  lemma SameHighest(s: State, t: State, k: IncidentKey)
    requires HighestInv(s) && HighestInv(t) && k in s.incidents && k in t.incidents
    requires forall a :: (k, a) in s.raised ==> (k, a) in t.raised && SameDetection(s, t, a)
    ensures Rank(s.incidents[k].severity) <= Rank(t.incidents[k].severity)
    ensures s.incidents[k].lastDetectedAt <= t.incidents[k].lastDetectedAt
  {
    assert Highest(s, k, s.incidents[k]) && Highest(t, k, t.incidents[k]);
    var a :| (k, a) in s.raised && a in s.alerts && s.alerts[a].severity == s.incidents[k].severity;
    assert (k, a) in t.raised && SameDetection(s, t, a);
    var b :| (k, b) in s.raised && b in s.alerts && s.alerts[b].detectedAt == s.incidents[k].lastDetectedAt;
    assert (k, b) in t.raised && SameDetection(s, t, b);
  }

  // What a run leaves behind, in terms of its transactions.

  ghost predicate SameDetection(s: State, t: State, a: AlertKey) {
    a in s.alerts && a in t.alerts ==>
      s.alerts[a].severity == t.alerts[a].severity && s.alerts[a].detectedAt == t.alerts[a].detectedAt
  }

  ghost predicate Inserts(op: Op, a: AlertKey) { op.InsertAlert? && AlertKeyOf(op.rule, op.event) == a }

  ghost predicate Raises(op: Op, p: (IncidentKey, AlertKey)) {
    op.RaiseIncident? && op.rule.incident.Some? && op.rule.incident.value.window >= 1
    && p == (IncidentKeyOf(op.rule, op.event), AlertKeyOf(op.rule, op.event))
  }

  ghost predicate Links(op: Op, p: (IncidentKey, AlertKey)) {
    op.LinkAlert? && op.rule.incident.Some? && op.rule.incident.value.window >= 1
    && p == (IncidentKeyOf(op.rule, op.event), AlertKeyOf(op.rule, op.event))
  }

  /** The links are those of the link transactions of the run, so their order does not matter. */
  lemma {:induction false} LinksAreTheLinkTransactions(s: State, ops: seq<Op>, p: (IncidentKey, AlertKey))
    ensures p in Run(s, ops).links <==> p in s.links || exists i :: 0 <= i < |ops| && Links(ops[i], p)
    decreases |ops|
  {
    if ops != [] {
      LinksAreTheLinkTransactions(Apply(s, ops[0]), ops[1..], p);
      assert p in Apply(s, ops[0]).links <==> p in s.links || Links(ops[0], p);
      if i :| 0 <= i < |ops[1..]| && Links(ops[1..][i], p) { assert Links(ops[i + 1], p); }
      if i :| 0 < i < |ops| && Links(ops[i], p) { assert Links(ops[1..][i - 1], p); }
    }
  }

  ghost predicate SomeRaises(ops: seq<Op>, p: (IncidentKey, AlertKey)) { exists op :: op in ops && Raises(op, p) }

  lemma SomeRaisesCons(ops: seq<Op>, p: (IncidentKey, AlertKey))
    requires ops != []
    ensures SomeRaises(ops, p) <==> Raises(ops[0], p) || SomeRaises(ops[1..], p)
  {
    assert ops == [ops[0]] + ops[1..];
    if SomeRaises(ops[1..], p) {
      var op :| op in ops[1..] && Raises(op, p);
      assert op in ops;
    }
    if Raises(ops[0], p) { assert ops[0] in ops; }
  }

  /** An incident was raised for an alert exactly when some transaction of the run did so. */
  lemma {:induction false} RaisedAreTheRaiseTransactions(rules: seq<Rule>, s: State, ops: seq<Op>,
                                                         p: (IncidentKey, AlertKey))
    requires IsRun(rules, s, ops)
    ensures p in Run(s, ops).raised <==> p in s.raised || SomeRaises(ops, p)
    decreases |ops|
  {
    if ops != [] {
      var t := Apply(s, ops[0]);
      RaisedAreTheRaiseTransactions(rules, t, ops[1..], p);
      SomeRaisesCons(ops, p);
      assert p in t.raised <==> p in s.raised || Raises(ops[0], p);
    }
  }

  /** A stored alert is what the first insert of its key stored. */
  lemma {:induction false} AlertsComeFromInserts(rules: seq<Rule>, s: State, ops: seq<Op>, a: AlertKey) returns (op: Op)
    requires IsRun(rules, s, ops) && a in Run(s, ops).alerts && a !in s.alerts
    ensures op in ops && Inserts(op, a) && op.rule in rules
    ensures Run(s, ops).alerts[a].detectedAt == op.now && Run(s, ops).alerts[a].severity == op.rule.severity
    decreases |ops|
  {
    var t := Apply(s, ops[0]);
    if a in t.alerts {
      op := ops[0];
      RunGrows(t, ops[1..]);
    } else {
      op := AlertsComeFromInserts(rules, t, ops[1..], a);
    }
  }

  lemma {:induction false} InsertedIsStored(rules: seq<Rule>, s: State, ops: seq<Op>, op: Op)
    requires IsRun(rules, s, ops) && op in ops && op.InsertAlert?
    ensures AlertKeyOf(op.rule, op.event) in Run(s, ops).alerts
  {
    var i :| 0 <= i < |ops| && ops[i] == op;
    CommittedInRun(rules, s, ops, i);
  }

  // Two runs of the same transactions.

  ghost predicate SameOps(ops: seq<Op>, other: seq<Op>) { forall op :: op in ops <==> op in other }

  /** No alert is inserted with two different detection times. */
  ghost predicate OneDetection(ops: seq<Op>) {
    forall x, y, a :: x in ops && y in ops && Inserts(x, a) && Inserts(y, a) ==> x.now == y.now
  }

  lemma SameAlerts(rules: seq<Rule>, ops: seq<Op>, other: seq<Op>, a: AlertKey)
    requires DistinctIdentities(rules) && IsRun(rules, EMPTY, ops) && IsRun(rules, EMPTY, other)
    requires SameOps(ops, other) && OneDetection(ops) && a in Run(EMPTY, ops).alerts
    ensures a in Run(EMPTY, other).alerts && SameDetection(Run(EMPTY, ops), Run(EMPTY, other), a)
  {
    var x := AlertsComeFromInserts(rules, EMPTY, ops, a);
    InsertedIsStored(rules, EMPTY, other, x);
    var y := AlertsComeFromInserts(rules, EMPTY, other, a);
    SameIdentitySameRule(rules, x.rule, y.rule);
  }

  lemma SameIdentitySameRule(rules: seq<Rule>, q: Rule, r: Rule)
    requires DistinctIdentities(rules) && q in rules && r in rules && q.code == r.code && q.version == r.version
    ensures q == r
  {
    var i :| 0 <= i < |rules| && rules[i] == q;
    var j :| 0 <= j < |rules| && rules[j] == r;
    assert (rules[i].code, rules[i].version) == (rules[j].code, rules[j].version);
  }

  lemma {:induction false} RunKeepsFrame(rules: seq<Rule>, s: State, ops: seq<Op>)
    requires Loaded(rules) && FrameInv(rules, s) && IsRun(rules, s, ops)
    ensures FrameInv(rules, Run(s, ops))
    decreases |ops|
  {
    if ops != [] {
      FrameKept(rules, s, ops[0]);
      RunKeepsFrame(rules, Apply(s, ops[0]), ops[1..]);
    }
  }

  /** What the two runs agree on. */
  ghost predicate SameOutcome(s: State, t: State) {
    && s.alerts.Keys == t.alerts.Keys && s.links == t.links && s.incidents.Keys == t.incidents.Keys
    && (forall a :: a in s.alerts ==>
          t.alerts[a].severity == s.alerts[a].severity && t.alerts[a].detectedAt == s.alerts[a].detectedAt)
    && (forall k :: k in s.incidents ==>
          && t.incidents[k].severity == s.incidents[k].severity
          && t.incidents[k].lastDetectedAt == s.incidents[k].lastDetectedAt && t.incidents[k].end == s.incidents[k].end)
  }

  lemma SameRaised(rules: seq<Rule>, ops: seq<Op>, other: seq<Op>, p: (IncidentKey, AlertKey))
    requires IsRun(rules, EMPTY, ops) && IsRun(rules, EMPTY, other) && SameOps(ops, other)
    ensures p in Run(EMPTY, ops).raised <==> p in Run(EMPTY, other).raised
  {
    RaisedAreTheRaiseTransactions(rules, EMPTY, ops, p);
    RaisedAreTheRaiseTransactions(rules, EMPTY, other, p);
  }

  lemma SameLinks(ops: seq<Op>, other: seq<Op>, p: (IncidentKey, AlertKey))
    requires SameOps(ops, other)
    ensures p in Run(EMPTY, ops).links ==> p in Run(EMPTY, other).links
  {
    LinksAreTheLinkTransactions(EMPTY, ops, p);
    LinksAreTheLinkTransactions(EMPTY, other, p);
    if p in Run(EMPTY, ops).links {
      var i :| 0 <= i < |ops| && Links(ops[i], p);
      assert ops[i] in other;
      var j :| 0 <= j < |other| && other[j] == ops[i];
    }
  }

  lemma IncidentWasRaised(s: State, k: IncidentKey) returns (a: AlertKey)
    requires HighestInv(s) && k in s.incidents
    ensures (k, a) in s.raised
  {
    assert Highest(s, k, s.incidents[k]);
    a :| (k, a) in s.raised && a in s.alerts && s.alerts[a].severity == s.incidents[k].severity;
  }

  lemma SameIncident(rules: seq<Rule>, ops: seq<Op>, other: seq<Op>, k: IncidentKey)
    requires DistinctIdentities(rules) && Loaded(rules) && IsRun(rules, EMPTY, ops) && IsRun(rules, EMPTY, other)
    requires SameOps(ops, other) && OneDetection(ops) && k in Run(EMPTY, ops).incidents
    ensures var s, t := Run(EMPTY, ops), Run(EMPTY, other);
      && k in t.incidents && Rank(s.incidents[k].severity) <= Rank(t.incidents[k].severity)
      && s.incidents[k].lastDetectedAt <= t.incidents[k].lastDetectedAt && s.incidents[k].end == t.incidents[k].end
  {
    var s, t := Run(EMPTY, ops), Run(EMPTY, other);
    RunKeepsHighest(rules, EMPTY, ops);
    RunKeepsHighest(rules, EMPTY, other);
    var c := IncidentWasRaised(s, k);
    SameRaised(rules, ops, other, (k, c));
    forall a | (k, a) in s.raised ensures (k, a) in t.raised && SameDetection(s, t, a) {
      SameRaised(rules, ops, other, (k, a));
      if a in s.alerts { SameAlerts(rules, ops, other, a); }
    }
    SameHighest(s, t, k);
    RunKeepsFrame(rules, EMPTY, ops);
    RunKeepsFrame(rules, EMPTY, other);
    SameEnd(rules, k, s.incidents[k], t.incidents[k]);
  }

  lemma SameEnd(rules: seq<Rule>, k: IncidentKey, i: Incident, j: Incident)
    requires Loaded(rules) && Framed(rules, k, i) && Framed(rules, k, j)
    ensures i.end == j.end
  {
    var v: nat :| HasWindow(rules, k.key, v) && v >= 1 && k.start % v == 0 && i.end == k.start + v;
    var w: nat :| HasWindow(rules, k.key, w) && w >= 1 && k.start % w == 0 && j.end == k.start + w;
    WindowIsUnique(rules, k.key, v, w);
  }

  /** Runs of the same transactions, in whatever order and however often repeated, store the
      same alerts, links and incidents, with the same severity, last detection and end. */
  lemma OrderDoesNotMatter(rules: seq<Rule>, ops: seq<Op>, other: seq<Op>)
    requires DistinctIdentities(rules) && Loaded(rules) && IsRun(rules, EMPTY, ops) && IsRun(rules, EMPTY, other)
    requires SameOps(ops, other) && OneDetection(ops)
    ensures SameOutcome(Run(EMPTY, ops), Run(EMPTY, other))
  {
    var s, t := Run(EMPTY, ops), Run(EMPTY, other);
    assert SameOps(other, ops) && OneDetection(other);
    forall a ensures a in s.alerts <==> a in t.alerts {
      if a in s.alerts { SameAlerts(rules, ops, other, a); }
      if a in t.alerts { SameAlerts(rules, other, ops, a); }
    }
    forall a | a in s.alerts
      ensures t.alerts[a].severity == s.alerts[a].severity && t.alerts[a].detectedAt == s.alerts[a].detectedAt
    {
      SameAlerts(rules, ops, other, a);
    }
    forall p ensures p in s.links <==> p in t.links {
      SameLinks(ops, other, p);
      SameLinks(other, ops, p);
    }
    forall k ensures k in s.incidents <==> k in t.incidents {
      if k in s.incidents { SameIncident(rules, ops, other, k); }
      if k in t.incidents { SameIncident(rules, other, ops, k); }
    }
    forall k | k in s.incidents
      ensures t.incidents[k].severity == s.incidents[k].severity
      ensures t.incidents[k].lastDetectedAt == s.incidents[k].lastDetectedAt && t.incidents[k].end == s.incidents[k].end
    {
      SameIncident(rules, ops, other, k);
      SameIncident(rules, other, ops, k);
    }
  }
}
