/** From events to incidents: what the evaluation of each batch says of the events counted
    so far, and that the incident lifecycle runs over exactly those evaluations. */
module Evaluations {
  import opened Lists
  import opened Options
  import opened Config
  import opened Rollups
  import opened Aggregation
  import opened Pipeline
  import opened Ledger
  import opened Snapshots
  import opened LifecycleHistory
  import Statistics
  import Detector
  import Lifecycle

  /** The evaluation at asOf is right about the log: its times and counts are those of the
      events in the two windows, telemetry is healthy exactly when there are enough of them
      and some are recent, and it is an anomaly exactly when, besides, there are enough errors
      and the increase stands. */
  ghost predicate Judges(s: Settings, log: seq<PaymentEvent>, asOf: int, e: Detector.Evaluation) {
    var current, baseline := Between(log, Mid(s, asOf), End(s, asOf)), Between(log, Begin(s, asOf), Mid(s, asOf));
    var x, n, y, m := Failures(current), |current|, Failures(baseline), |baseline|;
    && e.evaluatedAt == asOf && e.evidenceEnd == End(s, asOf)
    && e.currentErrors == x && e.currentAttempts == n && e.baselineErrors == y && e.baselineAttempts == m
    && (e.telemetry.Healthy? <==>
          && n >= s.minCurrentAttempts && m >= s.baselineRequiredSamples && m >= s.minBaselineAttempts
          && Recent(s, log, asOf))
    && (e.isAnomaly <==>
          e.telemetry.Healthy? && x >= s.minCurrentErrors && n > 0 && m > 0 && Statistics.Stands(s, x, n, y, m))
  }

  lemma DetectorJudges(s: Settings, shot: Snapshot, log: seq<PaymentEvent>, asOf: int)
    requires Tells(s, log, asOf, shot)
    ensures Judges(s, log, asOf, Detector.Evaluate(s, shot))
  {
    var current, baseline := Between(log, Mid(s, asOf), End(s, asOf)), Between(log, Begin(s, asOf), Mid(s, asOf));
    Statistics.AnomalyStands(s, shot, Failures(current), |current|, Failures(baseline), |baseline|);
  }

  // ---- one batch ------------------------------------------------------------

  /** The state has counted the events of the log and nothing else. */
  ghost predicate Counts(s: Settings, p: State, log: seq<PaymentEvent>) {
    Faithful(s, p.aggregate, log) && IsLatest(log, p.aggregate.latest)
  }

  /** A batch with a new payment is evaluated on the log with the events taken from it, and
      that evaluation is the one the lifecycle applies. */
  lemma BatchJudged(s: Settings, p: State, log: seq<PaymentEvent>, payments: seq<PaymentEvent>, asOf: int)
    requires Divides(s) && Counts(s, p, log) && NewPayments(p.ids, payments) != []
    requires BatchTimely(s, p, payments, asOf)
    ensures var (q, out) := ProcessBatch(s, p, payments, asOf);
      var log' := log + Taken(s, p.aggregate, NewPayments(p.ids, payments));
      && Counts(s, q, log') && out.Some?
      && Tells(s, log', asOf, out.value.shot) && Judges(s, log', asOf, out.value.evaluation)
      && (q.cell, out.value.transition) == Lifecycle.Apply(s, FINGERPRINT, p.cell, out.value.evaluation)
  {
    var es := NewPayments(p.ids, payments);
    var a, log' := IngestAll(s, p.aggregate, es), log + Taken(s, p.aggregate, es);
    IngestAllFaithful(s, p.aggregate, log, es);
    IngestAllLatest(s, p.aggregate, log, es);
    FaithfulSnapshotTells(s, a, log', asOf);
    DetectorJudges(s, TakeSnapshot(s, a, asOf).1, log', asOf);
    SameBuckets(s, a, ProcessBatch(s, p, payments, asOf).0.aggregate, log');
  }

  lemma SameBuckets(s: Settings, a: Aggregate, b: Aggregate, log: seq<PaymentEvent>)
    requires Faithful(s, a, log) && b.buckets == a.buckets && b.latest == a.latest
    ensures Faithful(s, b, log)
  {
    forall k ensures BucketExact(s.Bucket(), b, log, k) {
      assert BucketExact(s.Bucket(), a, log, k);
    }
    forall e | e in log ensures HasBucket(s, b, e) {
      assert HasBucket(s, a, e);
    }
  }

  // ---- any number of batches --------------------------------------------------

  /** The events counted along the script. */
  ghost function LogOf(s: Settings, script: seq<Batch>): seq<PaymentEvent> {
    if script == [] then []
    else
      var p := Uninterrupted(s, Pipeline.FRESH, Front(script)).0;
      LogOf(s, Front(script)) + Taken(s, p.aggregate, NewPayments(p.ids, Last(script).payments))
  }

  /** The evaluations among the outputs. */
  function Evaluated(outs: seq<Option<Output>>): seq<Lifecycle.Action> {
    if outs == [] then []
    else Evaluated(Front(outs)) + if Last(outs).Some? then [Lifecycle.Evaluated(Last(outs).value.evaluation)] else []
  }

  /** The batches that gave an output were judged on the events counted by then. */
  ghost predicate AllJudged(s: Settings, script: seq<Batch>, outs: seq<Option<Output>>) {
    |outs| == |script| && forall j :: 0 <= j < |script| && outs[j].Some? ==> JudgedAt(s, script, outs, j)
  }

  ghost predicate JudgedAt(s: Settings, script: seq<Batch>, outs: seq<Option<Output>>, j: nat)
    requires j < |script| == |outs| && outs[j].Some?
  {
    Judges(s, LogOf(s, script[..j+1]), script[j].asOf, outs[j].value.evaluation)
  }

  lemma {:induction false} ScriptJudged(s: Settings, script: seq<Batch>)
    requires Divides(s) && AllTimely(s, Pipeline.FRESH, script)
    ensures var (q, outs) := Uninterrupted(s, Pipeline.FRESH, script);
      && AllJudged(s, script, outs) && Counts(s, q, LogOf(s, script))
      && q.cell == Lifecycle.Run(s, FINGERPRINT, Evaluated(outs))
    decreases |script|
  {
    if script == [] {
      FreshCounts(s);
    } else {
      ScriptJudged(s, Front(script));
      ScriptStep(s, script);
    }
  }

  lemma FreshCounts(s: Settings)
    ensures Counts(s, Pipeline.FRESH, [])
  {
    assert forall k :: BucketExact(s.Bucket(), EMPTY, [], k);
  }

  lemma ScriptStep(s: Settings, script: seq<Batch>)
    requires script != [] && Divides(s) && AllTimely(s, Pipeline.FRESH, script)
    requires var (p, outs) := Uninterrupted(s, Pipeline.FRESH, Front(script));
      && AllJudged(s, Front(script), outs) && Counts(s, p, LogOf(s, Front(script)))
      && p.cell == Lifecycle.Run(s, FINGERPRINT, Evaluated(outs))
    ensures var (q, outs) := Uninterrupted(s, Pipeline.FRESH, script);
      && AllJudged(s, script, outs) && Counts(s, q, LogOf(s, script))
      && q.cell == Lifecycle.Run(s, FINGERPRINT, Evaluated(outs))
  {
    var (p, outs) := Uninterrupted(s, Pipeline.FRESH, Front(script));
    var (q, out) := ProcessBatch(s, p, Last(script).payments, Last(script).asOf);
    var log := LogOf(s, Front(script));
    if NewPayments(p.ids, Last(script).payments) != [] {
      BatchJudged(s, p, log, Last(script).payments, Last(script).asOf);
    } else {
      assert log + [] == log;
    }
    EvaluatedOn(s, outs, out, p.cell, q.cell);
    JudgedOn(s, script, outs, out);
  }

  lemma EvaluatedOn(s: Settings, outs: seq<Option<Output>>, out: Option<Output>, was: Lifecycle.Cell,
                    now: Lifecycle.Cell)
    requires was == Lifecycle.Run(s, FINGERPRINT, Evaluated(outs))
    requires now == if out.Some? then Lifecycle.Apply(s, FINGERPRINT, was, out.value.evaluation).0 else was
    ensures now == Lifecycle.Run(s, FINGERPRINT, Evaluated(outs + [out]))
  {
    assert Front(outs + [out]) == outs;
    var h := Evaluated(outs);
    if out.Some? {
      var a := Lifecycle.Evaluated(out.value.evaluation);
      assert (h + [a])[..|h|] == h;
    } else {
      assert h + [] == h;
    }
  }

  lemma JudgedStill(s: Settings, script: seq<Batch>, outs: seq<Option<Output>>, out: Option<Output>, j: nat)
    requires j < |outs| == |script| - 1 && outs[j].Some? && JudgedAt(s, Front(script), outs, j)
    ensures JudgedAt(s, script, outs + [out], j)
  {
    assert Front(script)[..j+1] == script[..j+1];
  }

  lemma JudgedOn(s: Settings, script: seq<Batch>, outs: seq<Option<Output>>, out: Option<Output>)
    requires script != [] && AllJudged(s, Front(script), outs)
    requires out.Some? ==> Judges(s, LogOf(s, script), Last(script).asOf, out.value.evaluation)
    ensures AllJudged(s, script, outs + [out])
  {
    forall j | 0 <= j < |script| && (outs + [out])[j].Some? ensures JudgedAt(s, script, outs + [out], j) {
      if j < |outs| {
        JudgedStill(s, script, outs, out, j);
      } else {
        assert script[..j+1] == script;
      }
    }
  }

  /** Over any script from the fresh state, restarted wherever it says so: every output is
      judged on the events counted by then, and the lifecycle is where a run over exactly
      those evaluations leads. */
  lemma RestartedJudged(s: Settings, script: seq<Batch>)
    requires Divides(s) && AllTimely(s, Pipeline.FRESH, script)
    ensures var (q, outs) := Restarted(s, Pipeline.FRESH, script);
      AllJudged(s, script, outs) && q.cell == Lifecycle.Run(s, FINGERPRINT, Evaluated(outs))
  {
    ScriptJudged(s, script);
    FreshTrims(s);
    RestartsAreTransparent(s, Pipeline.FRESH, script);
  }

  lemma FreshTrims(s: Settings)
    ensures Alike(s, Pipeline.FRESH, Pipeline.FRESH)
  {
  }

  /** The snapshots taken along the script are numbered from one. */
  lemma {:induction false} SnapshotsNumbered(s: Settings, script: seq<Batch>)
    ensures var (q, outs) := Uninterrupted(s, Pipeline.FRESH, script);
      && q.aggregate.version == |Evaluated(outs)|
      && (outs != [] && Last(outs).Some? ==> Last(outs).value.shot.version == |Evaluated(outs)|)
  {
    if script != [] {
      SnapshotsNumbered(s, Front(script));
      var (p, outs) := Uninterrupted(s, Pipeline.FRESH, Front(script));
      var (q, out) := ProcessBatch(s, p, Last(script).payments, Last(script).asOf);
      VersionStep(s, p, Last(script).payments, Last(script).asOf);
      assert Front(outs + [out]) == outs;
    }
  }

  lemma VersionStep(s: Settings, p: State, payments: seq<PaymentEvent>, asOf: int)
    ensures var (q, out) := ProcessBatch(s, p, payments, asOf);
      && q.aggregate.version == p.aggregate.version + (if out.Some? then 1 else 0)
      && (out.Some? ==> out.value.shot.version == q.aggregate.version)
  {
    VersionKept(s, p.aggregate, NewPayments(p.ids, payments));
  }

  lemma {:induction false} VersionKept(s: Settings, a: Aggregate, es: seq<PaymentEvent>)
    ensures IngestAll(s, a, es).version == a.version
  {
    if es != [] {
      VersionKept(s, a, Front(es));
    }
  }

  /** So a batch opens an incident exactly when the last persistence-many of the counted
      evaluations, its own the last, are anomalous. */
  lemma IncidentOpensExactly(s: Settings, script: seq<Batch>)
    requires Divides(s) && script != [] && AllTimely(s, Pipeline.FRESH, script)
    requires !Lifecycle.Active(Restarted(s, Pipeline.FRESH, Front(script)).0.cell)
    requires Last(Restarted(s, Pipeline.FRESH, script).1).Some?
    ensures var (q, outs) := Restarted(s, Pipeline.FRESH, script);
      && AllJudged(s, script, outs)
      && (Lifecycle.Active(q.cell) <==>
            LastAnomalous(Counted(s, FINGERPRINT, Evaluated(outs)), s.detectionPersistence))
  {
    RestartedJudged(s, Front(script));
    RestartedJudged(s, script);
    var (p, before) := Restarted(s, Pipeline.FRESH, Front(script));
    var (q, outs) := Restarted(s, Pipeline.FRESH, script);
    assert Front(outs) == before;
    OpensExactly(s, FINGERPRINT, Evaluated(before), Last(outs).value.evaluation);
  }
}
