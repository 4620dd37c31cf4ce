/** What is reported of each evaluation, and what is recorded of each incident. */
module IncidentRecords {
  import opened Lists
  import opened Options
  import opened Config
  import opened Detector
  import opened Lifecycle
  import opened LifecycleHistory

  // ---- the transition reported ----------------------------------------------------

  predicate Repeated(c: Cell, e: Evaluation) { c.signal.lastEvidenceEnd == Some(e.evidenceEnd) }

  /** The signal's incident was resolved less than the cooldown ago. */
  predicate Cooling(c: Cell, e: Evaluation) {
    c.signal.stage.Resolved? && c.signal.cooldownUntil.Some? && e.evaluatedAt < c.signal.cooldownUntil.value
  }

  /** The evaluation is one the lifecycle acts on. */
  predicate Heeded(c: Cell, e: Evaluation) { !Repeated(c, e) && e.telemetry.Healthy? && !Cooling(c, e) }

  /** Which evaluation is reported for which reason. */
  predicate ReasonFits(c: Cell, e: Evaluation, d: Cell, r: TransitionReason) {
    match r
    case UnchangedEvidence => Repeated(c, e)
    case CooldownActive => !Repeated(c, e) && e.telemetry.Healthy? && Cooling(c, e)
    case IncidentOpen => Heeded(c, e) && e.isAnomaly && d.signal.stage.Open?
    case AnomalySuspected => Heeded(c, e) && e.isAnomaly && d.signal.stage.Suspected?
    case RecoveryConfirmed => Heeded(c, e) && !e.isAnomaly && Active(c) && d.signal.stage.Resolved?
    case RecoveryStarted => Heeded(c, e) && !e.isAnomaly && Active(c) && d.signal.stage.RecoveryCandidate?
    case RecoveryNotConfirmed => Heeded(c, e) && !e.isAnomaly && Active(c) && d.signal.stage.Open?
    case FromDetector(why) =>
      && why == e.reason && !Repeated(c, e)
      && (!e.telemetry.Healthy? || (!Cooling(c, e) && !e.isAnomaly && !Active(c)))
  }

  lemma AnomalyFits(s: Settings, fp: string, c: Cell, e: Evaluation)
    requires Structured(s, fp, c) && Heeded(c, e) && e.isAnomaly
    ensures var (d, t) := Apply(s, fp, c, e);
      && t.stage == d.signal.stage && ReasonFits(c, e, d, t.reason)
      && t.incident == (if d.signal.stage.Open? then Linked(d) else None) && t.changed
  {
  }

  lemma RecoveryFits(s: Settings, fp: string, c: Cell, e: Evaluation)
    requires Structured(s, fp, c) && Heeded(c, e) && !e.isAnomaly && Active(c)
    ensures var (d, t) := Apply(s, fp, c, e);
      && t.stage == d.signal.stage && ReasonFits(c, e, d, t.reason)
      && t.incident == Linked(d) && (t.changed <==> t.reason != RecoveryNotConfirmed)
  {
  }

  lemma RestFits(s: Settings, fp: string, c: Cell, e: Evaluation)
    requires Structured(s, fp, c) && (Heeded(c, e) ==> !e.isAnomaly && !Active(c))
    ensures var (d, t) := Apply(s, fp, c, e);
      && t.stage == d.signal.stage && ReasonFits(c, e, d, t.reason)
      && t.incident == (if Heeded(c, e) then None else Linked(d)) && (t.changed <==> Heeded(c, e))
      && d.incidents == c.incidents
      && (Heeded(c, e) ==> d.signal.stage.Healthy? && d.signal.detectionCount == 0)
      && (!Heeded(c, e) ==> d.signal == c.signal.(
            lastEvidenceEnd := Some(e.evidenceEnd),
            stage := if !Repeated(c, e) && !e.telemetry.Healthy? && Linked(c).None? then WarmingUp else c.signal.stage))
  {
  }

  /** Whatever the evaluation, the transition shows the stage the signal is in afterwards, gives
      the reason that fits, and shows the linked incident unless it heeds the evaluation and
      none is open; and without heeding it, nothing but the evidence seen and, without an
      incident, the stage changes. */
  lemma TransitionTells(s: Settings, fp: string, c: Cell, e: Evaluation)
    requires Structured(s, fp, c)
    ensures var (d, t) := Apply(s, fp, c, e);
      && t.stage == d.signal.stage && ReasonFits(c, e, d, t.reason)
      && t.incident == (if Heeded(c, e) && d.signal.stage in {Suspected, Healthy} then None else Linked(d))
      && (t.changed <==> Heeded(c, e) && t.reason != RecoveryNotConfirmed)
  {
    if Heeded(c, e) && e.isAnomaly {
      AnomalyFits(s, fp, c, e);
    } else if Heeded(c, e) && Active(c) {
      RecoveryFits(s, fp, c, e);
    } else {
      RestFits(s, fp, c, e);
    }
  }

  // ---- the incident recorded --------------------------------------------------------

  /** Eight points of increase or fifty errors are high, four points or twenty errors medium. */
  predicate SeverityFits(increase: real, errors: nat, severity: Severity) {
    match severity
    case High => increase >= 0.08 || errors >= 50
    case Medium => increase < 0.08 && errors < 50 && (increase >= 0.04 || errors >= 20)
    case Low => increase < 0.04 && errors < 20
  }

  /** The incident an evaluation opens under new evidence. */
  lemma OpenedRecord(s: Settings, fp: string, c: Cell, e: Evaluation)
    requires Structured(s, fp, c) && !Active(c) && Active(Apply(s, fp, c, e).0)
    requires IncidentId(fp, e.evidenceEnd) !in c.incidents
    ensures var d := Apply(s, fp, c, e).0;
      && d.signal.incidentId == Some(IncidentId(fp, e.evidenceEnd)) && d.signal.stage.Open?
      && Linked(d).Some?
      && var i := Linked(d).value;
         && i == Incident(Open, i.severity, e.evaluatedAt, e.evaluatedAt, 2, None, None)
         && SeverityFits(if e.increase.Some? then e.increase.value else 0.0, e.currentErrors, i.severity)
  {
  }

  /** The record of the same incident, later: opened then and as severe, no earlier version, and
      a closure is not undone. */
  predicate Continues(i: Incident, j: Incident) {
    && j.startedAt == i.startedAt && j.severity == i.severity && j.version >= i.version
    && (i.closure.Some? ==> j.closure.Some?)
  }

  predicate Consistent(c: Cell) {
    forall id :: id in c.incidents ==> Closed(c.incidents[id])
  }

  /** A resolved incident says how it was closed, and only a manual closure has a reason. */
  predicate Closed(i: Incident) {
    (i.stage.Resolved? ==> i.closure.Some?) && (i.closureReason.Some? ==> i.closure.Some?)
  }

  lemma AnomalyRecords(s: Settings, fp: string, c: Cell, e: Evaluation, id: IncidentId)
    requires id in c.incidents && Closed(c.incidents[id])
    ensures var d := Anomaly(s, fp, c, e).0;
      id in d.incidents && Continues(c.incidents[id], d.incidents[id]) && Closed(d.incidents[id])
  {
  }

  lemma RecoveryRecords(s: Settings, c: Cell, e: Evaluation, id: IncidentId)
    requires Linked(c).Some? && id in c.incidents && Closed(c.incidents[id])
    ensures var d := Recovery(s, c, e).0;
      id in d.incidents && Continues(c.incidents[id], d.incidents[id]) && Closed(d.incidents[id])
  {
  }

  lemma StepRecords(s: Settings, fp: string, c: Cell, a: Action, id: IncidentId)
    requires id in c.incidents && Closed(c.incidents[id])
    ensures var d := Step(s, fp, c, a);
      id in d.incidents && Continues(c.incidents[id], d.incidents[id]) && Closed(d.incidents[id])
  {
    if a.Evaluated? {
      var g := c.signal.(lastEvidenceEnd := Some(a.e.evidenceEnd));
      var d := c.(signal := if g.stage.Resolved? then NewSignal(Healthy, Some(a.e.evidenceEnd)) else g);
      AnomalyRecords(s, fp, d, a.e, id);
      if Linked(d).Some? {
        RecoveryRecords(s, d, a.e, id);
      }
    }
  }

  lemma StepClosed(s: Settings, fp: string, c: Cell, a: Action)
    requires Consistent(c)
    ensures Consistent(Step(s, fp, c, a))
  {
    forall id | id in Step(s, fp, c, a).incidents ensures Closed(Step(s, fp, c, a).incidents[id]) {
      if id in c.incidents {
        StepRecords(s, fp, c, a, id);
      }
    }
  }

  /** Along any run no incident is resolved without a closure, ... */
  lemma {:induction false} AlwaysConsistent(s: Settings, fp: string, h: seq<Action>)
    ensures Consistent(Run(s, fp, h))
  {
    if h != [] {
      AlwaysConsistent(s, fp, Front(h));
      StepClosed(s, fp, Run(s, fp, Front(h)), Last(h));
    }
  }

  /** ... or lost, and none changes its start or its severity or goes back to an earlier version. */
  lemma {:induction false} RecordContinues(s: Settings, fp: string, h: seq<Action>, k: nat, id: IncidentId)
    requires k <= |h| && id in Run(s, fp, h[..k]).incidents
    ensures id in Run(s, fp, h).incidents
    ensures Continues(Run(s, fp, h[..k]).incidents[id], Run(s, fp, h).incidents[id])
  {
    if k == |h| {
      assert h[..k] == h;
    } else {
      assert Front(h)[..k] == h[..k];
      RecordContinues(s, fp, Front(h), k, id);
      AlwaysConsistent(s, fp, Front(h));
      StepRecords(s, fp, Run(s, fp, Front(h)), Last(h), id);
    }
  }
}
