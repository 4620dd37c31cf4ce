/** One signal of the incident lifecycle, as functions on values.  A signal is named by
    its fingerprint; with GLOBAL scope only, signals do not touch one another, so the
    state of one signal and the incidents of its fingerprint form a closed cell. */
module Lifecycle {
  import opened Options
  import opened Config
  import opened Detector

  datatype Stage = WarmingUp | Healthy | Suspected | Open | RecoveryCandidate | Resolved
  datatype Severity = Low | Medium | High
  datatype Closure = AutomaticRecovery | Manual

  /** Stands for the name-based uuid of fingerprint and evidence end. */
  datatype IncidentId = IncidentId(fingerprint: string, evidenceEnd: int)

  datatype Incident = Incident(
    stage: Stage,
    severity: Severity,
    startedAt: int,
    updatedAt: int,
    version: nat,
    closure: Option<Closure>,
    closureReason: Option<string>)

  datatype Signal = Signal(
    stage: Stage,
    detectionCount: nat,
    recoveryCount: nat,
    lastEvidenceEnd: Option<int>,
    frozenAttempts: Option<nat>,
    frozenErrors: Option<nat>,
    incidentId: Option<IncidentId>,
    cooldownUntil: Option<int>)

  datatype Cell = Cell(signal: Signal, incidents: map<IncidentId, Incident>)

  datatype TransitionReason =
    | UnchangedEvidence
    | FromDetector(reason: Reason)
    | CooldownActive
    | IncidentOpen
    | AnomalySuspected
    | RecoveryConfirmed
    | RecoveryStarted
    | RecoveryNotConfirmed

  datatype Transition = Transition(stage: Stage, incident: Option<Incident>, changed: bool, reason: TransitionReason)

  function NewSignal(stage: Stage, lastEvidenceEnd: Option<int>): Signal {
    Signal(stage, 0, 0, lastEvidenceEnd, None, None, None, None)
  }

  const FRESH := Cell(NewSignal(WarmingUp, None), map[])

  function Linked(c: Cell): Option<Incident> {
    if c.signal.incidentId.Some? && c.signal.incidentId.value in c.incidents
    then Some(c.incidents[c.signal.incidentId.value]) else None
  }

  predicate Active(c: Cell) { c.signal.stage.Open? || c.signal.stage.RecoveryCandidate? }

  // ---- recovery statistics --------------------------------------------------

  /** x + quantile * sqrt(variance) <= bound, without the square root. */
  predicate UpperWithin(s: Settings, x: real, variance: real, bound: real) {
    x <= bound && s.recoveryQuantile * s.recoveryQuantile * variance <= (bound - x) * (bound - x)
  }

  /** The variance of a rate observed over n attempts. */
  function RateSpread(rate: real, n: nat): real
    requires n > 0
  {
    rate * (1.0 - rate) / n as real
  }

  predicate PassesRecovery(s: Settings, e: Evaluation, frozenAttempts: Option<nat>, frozenErrors: Option<nat>) {
    && e.telemetry.Healthy?
    && e.currentAttempts >= s.minCurrentAttempts
    && e.baselineAttempts >= s.minBaselineAttempts
    && frozenAttempts.Some? && frozenAttempts.value != 0
    && frozenErrors.Some?
    && var current := Rate(e.currentErrors, e.currentAttempts);
       var base := Rate(frozenErrors.value, frozenAttempts.value);
       var currentVariance := RateSpread(current, e.currentAttempts);
       var baseVariance := RateSpread(base, frozenAttempts.value);
       && UpperWithin(s, current - base, currentVariance + baseVariance, s.residualMargin)
       && UpperWithin(s, current, currentVariance, s.safetyCeiling)
  }

  function SeverityOf(e: Evaluation): Severity {
    var delta := if e.increase.Some? then e.increase.value else 0.0;
    if delta >= 0.08 || e.currentErrors >= 50 then High
    else if delta >= 0.04 || e.currentErrors >= 20 then Medium
    else Low
  }

  // ---- one evaluation -------------------------------------------------------

  function Suspect(s: Settings, g: Signal, e: Evaluation): Signal {
    match g.stage
    case WarmingUp | Healthy =>
      g.(stage := Suspected, detectionCount := 1,
         frozenAttempts := Some(e.baselineAttempts), frozenErrors := Some(e.baselineErrors))
    case Suspected => g.(detectionCount := g.detectionCount + 1)
    case RecoveryCandidate => g.(stage := Open, detectionCount := s.detectionPersistence)
    case Open | Resolved => g
  }

  function Reported(incident: Incident, stage: Stage, at: int): Incident {
    incident.(stage := stage, updatedAt := at, version := incident.version + 1)
  }

  function Anomaly(s: Settings, fp: string, c: Cell, e: Evaluation): (Cell, Transition) {
    var g := Suspect(s, c.signal.(recoveryCount := 0), e);
    if g.detectionCount >= s.detectionPersistence then
      var linked := Linked(c);
      var id := if linked.Some? then c.signal.incidentId.value else IncidentId(fp, e.evidenceEnd);
      var incident := if linked.Some? then linked.value
        else if id in c.incidents then c.incidents[id]
        else Incident(Open, SeverityOf(e), e.evaluatedAt, e.evaluatedAt, 1, None, None);
      var raised := Reported(incident, Open, e.evaluatedAt);
      (Cell(g.(stage := Open, incidentId := Some(id)), c.incidents[id := raised]),
       Transition(Open, Some(raised), true, IncidentOpen))
    else
      (c.(signal := g), Transition(g.stage, None, true, AnomalySuspected))
  }

  function Recovery(s: Settings, c: Cell, e: Evaluation): (Cell, Transition)
    requires Linked(c).Some?
  {
    var g, id := c.signal, c.signal.incidentId.value;
    if PassesRecovery(s, e, g.frozenAttempts, g.frozenErrors) then
      var count := g.recoveryCount + 1;
      var incident := Reported(c.incidents[id], RecoveryCandidate, e.evaluatedAt);
      if count >= s.recoveryPersistence then
        var closed := incident.(stage := Resolved, closure := Some(AutomaticRecovery));
        (Cell(g.(stage := Resolved, recoveryCount := count, cooldownUntil := Some(e.evaluatedAt + s.Cooldown())),
              c.incidents[id := closed]),
         Transition(Resolved, Some(closed), true, RecoveryConfirmed))
      else
        (Cell(g.(stage := RecoveryCandidate, recoveryCount := count), c.incidents[id := incident]),
         Transition(RecoveryCandidate, Some(incident), true, RecoveryStarted))
    else
      var incident := c.incidents[id].(stage := Open, updatedAt := e.evaluatedAt);
      (Cell(g.(stage := Open, recoveryCount := 0), c.incidents[id := incident]),
       Transition(Open, Some(incident), false, RecoveryNotConfirmed))
  }

  predicate Duplicate(c: Cell, e: Evaluation) { c.signal.lastEvidenceEnd == Some(e.evidenceEnd) }

  /** A healthy evaluation that arrives while the cooldown of a resolved incident runs. */
  predicate InCooldown(c: Cell, e: Evaluation) {
    && e.telemetry.Healthy? && c.signal.stage.Resolved?
    && c.signal.cooldownUntil.Some? && e.evaluatedAt < c.signal.cooldownUntil.value
  }

  function Apply(s: Settings, fp: string, c: Cell, e: Evaluation): (Cell, Transition) {
    var linked := Linked(c);
    if Duplicate(c, e) then (c, Transition(c.signal.stage, linked, false, UnchangedEvidence))
    else
      var g := c.signal.(lastEvidenceEnd := Some(e.evidenceEnd));
      if !e.telemetry.Healthy? then
        var g' := if linked.None? then g.(stage := WarmingUp) else g;
        (c.(signal := g'), Transition(g'.stage, linked, false, FromDetector(e.reason)))
      else if InCooldown(c, e) then (c.(signal := g), Transition(g.stage, linked, false, CooldownActive))
      else
        var d := c.(signal := if g.stage.Resolved? then NewSignal(Healthy, Some(e.evidenceEnd)) else g);
        if e.isAnomaly then Anomaly(s, fp, d, e)
        else if Linked(d).Some? && Active(d) then Recovery(s, d, e)
        else
          (d.(signal := d.signal.(stage := Healthy, detectionCount := 0)),
           Transition(Healthy, None, true, FromDetector(e.reason)))
  }

  // ---- manual closure -------------------------------------------------------

  function Close(s: Settings, c: Cell, id: IncidentId, reason: string): Cell
    requires id in c.incidents
  {
    var incident := c.incidents[id];
    var closed := incident.(stage := Resolved, closure := Some(Manual), closureReason := Some(reason),
                            version := incident.version + 1);
    Cell(c.signal.(stage := Resolved, cooldownUntil := Some(incident.updatedAt + s.Cooldown())),
         c.incidents[id := closed])
  }

  // ---- runs -----------------------------------------------------------------

  datatype Action = Evaluated(e: Evaluation) | ClosedLinked(reason: string)

  /** One action; a manual closure names the incident the signal is linked to. */
  function Step(s: Settings, fp: string, c: Cell, a: Action): Cell {
    match a
    case Evaluated(e) => Apply(s, fp, c, e).0
    case ClosedLinked(reason) =>
      if Linked(c).Some? then Close(s, c, c.signal.incidentId.value, reason) else c
  }

  function Run(s: Settings, fp: string, h: seq<Action>): Cell {
    if h == [] then FRESH else Step(s, fp, Run(s, fp, h[..|h|-1]), h[|h|-1])
  }
}
