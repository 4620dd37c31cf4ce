/** The lifecycle and the root-cause memo together: the pipeline hands the incident's version
    to the analysis, and the memo goes by it. */
module StaleAnalysis {
  import opened Options
  import opened Config
  import opened Detector
  import opened Lifecycle
  import opened LifecycleHistory
  import opened LifecycleExamples
  import opened RootCause
  import opened RootCauseEngine

  /** What the pipeline asks about an incident: with its start, its version, and whether it is
      resolved; what the windows show and the events are free. */
  predicate AskedAbout(x: Input, incident: Incident) {
    && x.incident.start == incident.startedAt
    && x.incident.analysis.version == incident.version
    && x.recovery == incident.stage.Resolved?
  }

  /** After a failed recovery check the engine is asked under the key of the time before.
      Whatever the windows show by then, it gives the answer it gave, and the answer is stale
      exactly when what that came from leads elsewhere. */
  lemma FailedCheckAnswersAsBefore(s: Settings, fp: string, c: Cell, e: Evaluation, was: Incident, now: Incident,
                                   r: Rules, calls: seq<Call>, name: string, x: Input, y: Input)
    requires Structured(s, fp, c) && FailsRecovery(s, c, e)
    requires Linked(c) == Some(was) && Linked(Apply(s, fp, c, e).0) == Some(now)
    requires AskedAbout(x, was) && AskedAbout(y, now) && x.events == y.events
    ensures var asked := calls + [Call(name, x)];
      var answer := Answer(r, RootCauseEngine.After(r, asked), name, y).1;
      && Source(asked, name).Some?
      && answer == Answer(r, RootCauseEngine.After(r, calls), name, x).1
      && (answer.outcome != Decide(r, Hypotheses(r, y)) <==>
            Decide(r, Hypotheses(r, Source(asked, name).value)) != Decide(r, Hypotheses(r, y)))
  {
    FailedCheckKeepsVersion(s, fp, c, e);
    AskedAgain(r, calls, name, x, y);
  }

  /** It happens: an incident opens while the windows show no error signature, a recovery
      check fails when they show one, and the engine still finds no leader. */
  lemma StaleAnswerReached(s: Settings, fp: string, r: Rules, name: string) returns (was: Incident, now: Incident)
    ensures var c := Run(s, fp, FirstRun(s));
      && Linked(c) == Some(was) && was.stage.Open?
      && Linked(Apply(s, fp, c, QuietAt(1, s.detectionPersistence + 1)).0) == Some(now)
    ensures var x, y := Seen(was.version, None), Seen(now.version, Some(KNOWN_SIGNATURE));
      && AskedAbout(x, was) && AskedAbout(y, now)
      && Answer(r, RootCauseEngine.After(r, [Call(name, x)]), name, y).1.outcome.leading.None?
      && Decide(r, Hypotheses(r, y)).leading.Some?
  {
    var c, e := Run(s, fp, FirstRun(s)), QuietAt(1, s.detectionPersistence + 1);
    FirstIncident(s, fp);
    EveryReachableCellStructured(s, fp, FirstRun(s));
    FailedCheckKeepsVersion(s, fp, c, e);
    was, now := Linked(c).value, Linked(Apply(s, fp, c, e).0).value;
    SameVersionIsStale(r, name, was.version);
  }
}
