/** The incident manager: the tables of signals and incidents, updated in place. */
module IncidentManager {
  import opened Options
  import opened Config
  import opened Detector
  import opened Lifecycle

  datatype CloseError = BlankReason | UnknownIncident
  datatype CloseResult = Closed(incident: Incident) | Refused(error: CloseError)

  predicate IsSpace(ch: char) { ch == ' ' || ch == '\t' || ch == '\n' || ch == '\r' }

  function StripLeft(text: string): string {
    if text != [] && IsSpace(text[0]) then StripLeft(text[1..]) else text
  }

  function StripRight(text: string): string {
    if text != [] && IsSpace(text[|text|-1]) then StripRight(text[..|text|-1]) else text
  }

  function Strip(text: string): string { StripRight(StripLeft(text)) }

  class IncidentLifecycleManager {
    const settings: Settings
    var signals: map<string, Signal>
    var incidents: map<IncidentId, Incident>

    ghost predicate Valid()
      reads this
    {
      && (forall fp :: fp in signals && signals[fp].incidentId.Some? ==> signals[fp].incidentId.value.fingerprint == fp)
      && (forall id :: id in incidents ==> id.fingerprint in signals)
    }

    /** The signal of a fingerprint and the incidents that carry it. */
    ghost function CellOf(fp: string): Cell
      reads this
    {
      Cell(if fp in signals then signals[fp] else NewSignal(WarmingUp, None),
           map id | id in incidents && id.fingerprint == fp :: incidents[id])
    }

    constructor (settings: Settings)
      ensures this.settings == settings && Valid()
      ensures forall fp :: CellOf(fp) == FRESH
      ensures signals == map[]
    {
      this.settings := settings;
      signals, incidents := map[], map[];
    }

    /** Restores the one signal of a checkpoint. */
    method ImportCell(fp: string, cell: Cell)
      requires cell.signal.incidentId.Some? ==> cell.signal.incidentId.value.fingerprint == fp
      requires forall id :: id in cell.incidents ==> id.fingerprint == fp
      modifies this
      ensures Valid() && CellOf(fp) == cell && signals.Keys == {fp}
    {
      signals := map[fp := cell.signal];
      incidents := cell.incidents;
      assert CellOf(fp).incidents == cell.incidents;
    }

    method ExportCell(fp: string) returns (cell: Cell)
      requires Valid() && signals.Keys <= {fp}
      ensures cell == CellOf(fp)
    {
      cell := Cell(if fp in signals then signals[fp] else NewSignal(WarmingUp, None), incidents);
      assert CellOf(fp).incidents == incidents;
    }

    method SetSignal(fp: string, g: Signal)
      requires Valid() && (g.incidentId.Some? ==> g.incidentId.value.fingerprint == fp)
      modifies this`signals
      ensures Valid() && signals.Keys == old(signals.Keys) + {fp}
      ensures CellOf(fp) == old(CellOf(fp)).(signal := g)
      ensures forall other :: other != fp ==> CellOf(other) == old(CellOf(other))
    {
      signals := signals[fp := g];
    }

    method SetIncident(id: IncidentId, incident: Incident)
      requires Valid() && id.fingerprint in signals
      modifies this`incidents
      ensures Valid() && id in incidents && incidents[id] == incident
      ensures var was := old(CellOf(id.fingerprint));
        CellOf(id.fingerprint) == was.(incidents := was.incidents[id := incident])
      ensures forall other :: other != id.fingerprint ==> CellOf(other) == old(CellOf(other))
    {
      ghost var was := CellOf(id.fingerprint).incidents;
      incidents := incidents[id := incident];
      assert CellOf(id.fingerprint).incidents == was[id := incident];
      forall other | other != id.fingerprint ensures CellOf(other) == old(CellOf(other)) {
        assert CellOf(other).incidents == old(CellOf(other).incidents);
      }
    }

    /** Applies one evaluation of the signal fp. */
    method Apply(fp: string, e: Evaluation) returns (t: Transition)
      requires Valid()
      modifies this
      ensures Valid()
      ensures (CellOf(fp), t) == Lifecycle.Apply(settings, fp, old(CellOf(fp)), e)
      ensures forall other :: other != fp ==> CellOf(other) == old(CellOf(other))
      ensures signals.Keys == old(signals.Keys) + {fp}
    {
      ghost var was := CellOf(fp);
      var g := if fp in signals then signals[fp] else NewSignal(WarmingUp, None);
      var linked := g.incidentId.Some? && g.incidentId.value in incidents;
      var incident := if linked then Some(incidents[g.incidentId.value]) else None;
      SetSignal(fp, g);
      assert CellOf(fp) == was;
      if g.lastEvidenceEnd == Some(e.evidenceEnd) {
        return Transition(g.stage, incident, false, UnchangedEvidence);
      }
      g := g.(lastEvidenceEnd := Some(e.evidenceEnd));
      if !e.telemetry.Healthy? {
        if !linked {
          g := g.(stage := WarmingUp);
        }
        SetSignal(fp, g);
        return Transition(g.stage, incident, false, FromDetector(e.reason));
      }
      if g.stage.Resolved? {
        if g.cooldownUntil.Some? && e.evaluatedAt < g.cooldownUntil.value {
          SetSignal(fp, g);
          return Transition(g.stage, incident, false, CooldownActive);
        }
        g := NewSignal(Healthy, Some(e.evidenceEnd));
        linked := false;
      }
      SetSignal(fp, g);
      if e.isAnomaly {
        t := OnAnomaly(fp, e);
      } else if linked && (g.stage.Open? || g.stage.RecoveryCandidate?) {
        t := OnRecovery(fp, e);
      } else {
        SetSignal(fp, g.(stage := Healthy, detectionCount := 0));
        t := Transition(Healthy, None, true, FromDetector(e.reason));
      }
    }

    method OnAnomaly(fp: string, e: Evaluation) returns (t: Transition)
      requires Valid() && fp in signals
      modifies this
      ensures Valid()
      ensures (CellOf(fp), t) == Anomaly(settings, fp, old(CellOf(fp)), e)
      ensures forall other :: other != fp ==> CellOf(other) == old(CellOf(other))
      ensures signals.Keys == old(signals.Keys)
    {
      var linked := signals[fp].incidentId.Some? && signals[fp].incidentId.value in incidents;
      var incident := if linked then Some(incidents[signals[fp].incidentId.value]) else None;
      var g := Suspect(settings, signals[fp].(recoveryCount := 0), e);
      if g.detectionCount >= settings.detectionPersistence {
        if !linked {
          g, incident := OpenIncident(fp, e, g);
        }
        g := g.(stage := Open);
        var raised := Reported(incident.value, Open, e.evaluatedAt);
        SetSignal(fp, g);
        SetIncident(g.incidentId.value, raised);
        t := Transition(Open, Some(raised), true, IncidentOpen);
      } else {
        SetSignal(fp, g);
        t := Transition(g.stage, None, true, AnomalySuspected);
      }
    }

    method OnRecovery(fp: string, e: Evaluation) returns (t: Transition)
      requires Valid() && fp in signals
      requires Linked(CellOf(fp)).Some?
      modifies this
      ensures Valid()
      ensures (CellOf(fp), t) == Recovery(settings, old(CellOf(fp)), e)
      ensures forall other :: other != fp ==> CellOf(other) == old(CellOf(other))
      ensures signals.Keys == old(signals.Keys)
    {
      var g := signals[fp];
      var id := g.incidentId.value;
      var incident := incidents[id];
      if PassesRecovery(settings, e, g.frozenAttempts, g.frozenErrors) {
        g := g.(recoveryCount := g.recoveryCount + 1, stage := RecoveryCandidate);
        incident := Reported(incident, RecoveryCandidate, e.evaluatedAt);
        t := Transition(RecoveryCandidate, Some(incident), true, RecoveryStarted);
        if g.recoveryCount >= settings.recoveryPersistence {
          g := g.(stage := Resolved, cooldownUntil := Some(e.evaluatedAt + settings.Cooldown()));
          incident := incident.(stage := Resolved, closure := Some(AutomaticRecovery));
          t := Transition(Resolved, Some(incident), true, RecoveryConfirmed);
        }
      } else {
        g := g.(recoveryCount := 0, stage := Open);
        incident := incident.(stage := Open, updatedAt := e.evaluatedAt);
        t := Transition(Open, Some(incident), false, RecoveryNotConfirmed);
      }
      SetSignal(fp, g);
      SetIncident(id, incident);
    }

    /** Creates, or finds again, the incident named by the evidence that confirms it. */
    method OpenIncident(fp: string, e: Evaluation, g: Signal) returns (g': Signal, incident: Option<Incident>)
      requires Valid()
      ensures var id := IncidentId(fp, e.evidenceEnd);
        && g' == g.(incidentId := Some(id))
        && incident == Some(if id in CellOf(fp).incidents then CellOf(fp).incidents[id]
                            else Incident(Open, SeverityOf(e), e.evaluatedAt, e.evaluatedAt, 1, None, None))
    {
      var id := IncidentId(fp, e.evidenceEnd);
      if id in incidents {
        incident := Some(incidents[id]);
      } else {
        incident := Some(Incident(Open, SeverityOf(e), e.evaluatedAt, e.evaluatedAt, 1, None, None));
      }
      g' := g.(incidentId := Some(id));
    }

    method ManualClose(id: IncidentId, reason: string) returns (r: CloseResult)
      requires Valid()
      modifies this
      ensures Valid()
      ensures Strip(reason) == [] ==> r == Refused(BlankReason)
      ensures Strip(reason) != [] && id !in old(incidents) ==> r == Refused(UnknownIncident)
      ensures r.Refused? ==> signals == old(signals) && incidents == old(incidents)
      ensures Strip(reason) != [] && id in old(incidents) ==>
        && CellOf(id.fingerprint) == Close(settings, old(CellOf(id.fingerprint)), id, Strip(reason))
        && id in incidents && r == Closed(incidents[id])
      ensures forall other :: other != id.fingerprint ==> CellOf(other) == old(CellOf(other))
    {
      var recorded := Strip(reason);
      if recorded == [] {
        return Refused(BlankReason);
      }
      if id !in incidents {
        return Refused(UnknownIncident);
      }
      var incident := incidents[id].(stage := Resolved, closure := Some(Manual), closureReason := Some(recorded),
                                     version := incidents[id].version + 1);
      var g := signals[id.fingerprint];
      g := g.(stage := Resolved, cooldownUntil := Some(incident.updatedAt + settings.Cooldown()));
      SetSignal(id.fingerprint, g);
      SetIncident(id, incident);
      r := Closed(incident);
    }
  }
}
