/** Runs of the lifecycle that reach what the other modules speak of: an open incident, a
    failing recovery check, and a stale incident beside the linked one. */
module LifecycleExamples {
  import opened Lists
  import opened Options
  import opened Config
  import opened Detector
  import opened Lifecycle
  import opened LifecycleHistory
  import Aggregation

  function AnomalyAt(at: int, evidenceEnd: int): Evaluation {
    Evaluation(at, evidenceEnd, Aggregation.Telemetry.Healthy, true, 1000, 100, 1000, 0, None, AnomalyConfirmed)
  }

  /** Healthy telemetry, but no traffic to judge a recovery by. */
  function QuietAt(at: int, evidenceEnd: int): Evaluation {
    Evaluation(at, evidenceEnd, Aggregation.Telemetry.Healthy, false, 0, 0, 1000, 0, None, InsufficientVolume)
  }

  /** k anomalies at one time, with evidence after from. */
  function Anomalies(at: int, from: int, k: nat): seq<Action> {
    if k == 0 then [] else Anomalies(at, from, k - 1) + [Evaluated(AnomalyAt(at, from + k))]
  }

  /** Nothing is suspected, no cooldown runs at the time, and the evidence is all older. */
  predicate Calm(c: Cell, at: int, from: int) {
    var g := c.signal;
    && (g.lastEvidenceEnd.Some? ==> g.lastEvidenceEnd.value <= from)
    && (if g.stage.Resolved? then g.cooldownUntil.Some? && g.cooldownUntil.value <= at
        else (g.stage.WarmingUp? || g.stage.Healthy?) && g.incidentId.None?)
  }

  function Opened(fp: string, at: int, evidenceEnd: int): (IncidentId, Incident) {
    (IncidentId(fp, evidenceEnd), Incident(Open, SeverityOf(AnomalyAt(at, evidenceEnd)), at, at, 2, None, None))
  }

  predicate Suspecting(c: Cell, was: Cell, from: int, k: nat) {
    && c.signal.stage.Suspected? && c.signal.detectionCount == k && c.signal.incidentId.None?
    && c.signal.lastEvidenceEnd == Some(from + k) && c.incidents == was.incidents
  }

  predicate OpenedIn(fp: string, c: Cell, was: Cell, at: int, evidenceEnd: int) {
    var (id, incident) := Opened(fp, at, evidenceEnd);
    && c.signal.stage.Open? && c.signal.incidentId == Some(id)
    && c.signal.lastEvidenceEnd == Some(evidenceEnd) && c.incidents == was.incidents[id := incident]
  }

  predicate Risen(s: Settings, fp: string, c: Cell, was: Cell, at: int, from: int, k: nat) {
    if k < s.detectionPersistence then Suspecting(c, was, from, k) else OpenedIn(fp, c, was, at, from + k)
  }

  lemma FirstAnomaly(s: Settings, fp: string, c: Cell, at: int, from: int)
    requires Calm(c, at, from) && (s.detectionPersistence == 1 ==> IncidentId(fp, from + 1) !in c.incidents)
    ensures Risen(s, fp, Apply(s, fp, c, AnomalyAt(at, from + 1)).0, c, at, from, 1)
  {
  }

  lemma NextAnomaly(s: Settings, fp: string, c: Cell, was: Cell, at: int, from: int, k: nat)
    requires 1 <= k < s.detectionPersistence && Suspecting(c, was, from, k)
    requires k + 1 == s.detectionPersistence ==> IncidentId(fp, from + k + 1) !in was.incidents
    ensures Risen(s, fp, Apply(s, fp, c, AnomalyAt(at, from + (k + 1))).0, was, at, from, k + 1)
  {
  }

  /** The cell that a run leads to from c. */
  function RunFrom(s: Settings, fp: string, c: Cell, h: seq<Action>): Cell {
    if h == [] then c else Step(s, fp, RunFrom(s, fp, c, Front(h)), Last(h))
  }

  lemma {:induction false} RunConcat(s: Settings, fp: string, h: seq<Action>, more: seq<Action>)
    ensures Run(s, fp, h + more) == RunFrom(s, fp, Run(s, fp, h), more)
    decreases |more|
  {
    if more == [] {
      assert h + more == h;
    } else {
      RunConcat(s, fp, h, Front(more));
      assert Front(h + more) == h + Front(more) && Last(h + more) == Last(more);
    }
  }

  lemma FromOn(s: Settings, fp: string, c: Cell, at: int, from: int, k: nat)
    requires k >= 1
    ensures RunFrom(s, fp, c, Anomalies(at, from, k))
      == Apply(s, fp, RunFrom(s, fp, c, Anomalies(at, from, k - 1)), AnomalyAt(at, from + k)).0
  {
    assert Front(Anomalies(at, from, k)) == Anomalies(at, from, k - 1);
  }

  lemma RisesFirst(s: Settings, fp: string, c: Cell, at: int, from: int)
    requires Calm(c, at, from) && (s.detectionPersistence == 1 ==> IncidentId(fp, from + 1) !in c.incidents)
    ensures Risen(s, fp, RunFrom(s, fp, c, Anomalies(at, from, 1)), c, at, from, 1)
  {
    assert RunFrom(s, fp, c, Anomalies(at, from, 0)) == c;
    FromOn(s, fp, c, at, from, 1);
    FirstAnomaly(s, fp, c, at, from);
  }

  lemma RisesOn(s: Settings, fp: string, c: Cell, at: int, from: int, k: nat)
    requires 1 <= k < s.detectionPersistence && Suspecting(RunFrom(s, fp, c, Anomalies(at, from, k)), c, from, k)
    requires k + 1 == s.detectionPersistence ==> IncidentId(fp, from + k + 1) !in c.incidents
    ensures Risen(s, fp, RunFrom(s, fp, c, Anomalies(at, from, k + 1)), c, at, from, k + 1)
  {
    FromOn(s, fp, c, at, from, k + 1);
    NextAnomaly(s, fp, RunFrom(s, fp, c, Anomalies(at, from, k)), c, at, from, k);
  }

  /** From calm, anomalies raise suspicion, and the last of as many as persistence asks for
      opens an incident. */
  lemma {:induction false} Rising(s: Settings, fp: string, c: Cell, at: int, from: int, k: nat)
    requires Calm(c, at, from) && 1 <= k <= s.detectionPersistence
    requires IncidentId(fp, from + s.detectionPersistence) !in c.incidents
    ensures Risen(s, fp, RunFrom(s, fp, c, Anomalies(at, from, k)), c, at, from, k)
    decreases k
  {
    if k == 1 {
      RisesFirst(s, fp, c, at, from);
    } else {
      Rising(s, fp, c, at, from, k - 1);
      RisesOn(s, fp, c, at, from, k - 1);
    }
  }

  /** Anomalies right from the start. */
  function FirstRun(s: Settings): seq<Action> { Anomalies(0, 0, s.detectionPersistence) }

  lemma FirstIncident(s: Settings, fp: string)
    ensures OpenedIn(fp, Run(s, fp, FirstRun(s)), FRESH, 0, s.detectionPersistence)
    ensures FailsRecovery(s, Run(s, fp, FirstRun(s)), QuietAt(1, s.detectionPersistence + 1))
  {
    assert [] + FirstRun(s) == FirstRun(s);
    RunConcat(s, fp, [], FirstRun(s));
    Rising(s, fp, FRESH, 0, 0, s.detectionPersistence);
  }

  /** A reachable incident changes under its old version. */
  lemma VersionKept(s: Settings, fp: string)
    ensures var c, e := Run(s, fp, FirstRun(s)), QuietAt(1, s.detectionPersistence + 1);
      var was, now := Linked(c), Linked(Apply(s, fp, c, e).0);
      was.Some? && now.Some? && was != now && was.value.version == now.value.version
  {
    FirstIncident(s, fp);
    EveryReachableCellStructured(s, fp, FirstRun(s));
    FailedCheckKeepsVersion(s, fp, Run(s, fp, FirstRun(s)), QuietAt(1, s.detectionPersistence + 1));
  }

  /** The first incident closed by hand, and anomalies again when the cooldown is over. */
  function SecondRun(s: Settings): seq<Action> {
    FirstRun(s) + [ClosedLinked("handled")] + Anomalies(s.Cooldown(), s.detectionPersistence, s.detectionPersistence)
  }

  /** Then closing the first incident once more, by hand, resolves the signal while the
      second incident is left open. */
  lemma StaleClosureBreaks(s: Settings, fp: string, reason: string)
    ensures var c, stale := Run(s, fp, SecondRun(s)), IncidentId(fp, s.detectionPersistence);
      && stale in c.incidents && c.incidents[stale].stage.Resolved?
      && Structured(s, fp, c) && !Structured(s, fp, Close(s, c, stale, reason))
      && Close(s, c, stale, reason).signal.stage.Resolved? && Linked(c).Some? && Linked(c).value.stage.Open?
  {
    var n := s.detectionPersistence;
    var closed := FirstRun(s) + [ClosedLinked("handled")];
    FirstIncident(s, fp);
    assert closed[..|closed|-1] == FirstRun(s);
    assert closed[|closed|-1] == ClosedLinked("handled");
    var first := Run(s, fp, closed);
    assert first.incidents.Keys == {IncidentId(fp, n)};
    RunConcat(s, fp, closed, Anomalies(s.Cooldown(), n, n));
    Rising(s, fp, first, s.Cooldown(), n, n);
    EveryReachableCellStructured(s, fp, SecondRun(s));
    CloseKeepsStructureIff(s, fp, Run(s, fp, SecondRun(s)), IncidentId(fp, n), reason);
  }
}
