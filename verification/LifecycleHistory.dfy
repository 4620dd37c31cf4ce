/** What the lifecycle counters mean in terms of the history of evaluations, and the
    structure every reachable state has. */
module LifecycleHistory {
  import opened Lists
  import opened Options
  import opened Config
  import opened Detector
  import opened Lifecycle
  import Statistics

  // ---- structure ------------------------------------------------------------

  /** A linked incident exists exactly in the incident stages and agrees with the stage;
      the counters are in the range of the stage; no other incident of the fingerprint
      is unresolved. */
  predicate Structured(s: Settings, fp: string, c: Cell) {
    var g := c.signal;
    && (g.incidentId.Some? <==> g.stage.Open? || g.stage.RecoveryCandidate? || g.stage.Resolved?)
    && (g.incidentId.Some? ==>
          && g.incidentId.value in c.incidents
          && c.incidents[g.incidentId.value].stage == g.stage)
    && (g.stage.Suspected? ==> 1 <= g.detectionCount < s.detectionPersistence)
    && (Active(c) ==> g.detectionCount == s.detectionPersistence)
    && (g.stage.Open? ==> g.recoveryCount == 0)
    && (g.stage.RecoveryCandidate? ==> 1 <= g.recoveryCount < s.recoveryPersistence)
    && (g.stage.Resolved? ==> g.cooldownUntil.Some?)
    && (forall id :: id in c.incidents ==> id.fingerprint == fp)
    && (forall id :: id in c.incidents && !c.incidents[id].stage.Resolved? ==> g.incidentId == Some(id))
  }

  lemma StructuredAnomaly(s: Settings, fp: string, c: Cell, e: Evaluation)
    requires Structured(s, fp, c) && !c.signal.stage.Resolved?
    ensures Structured(s, fp, Anomaly(s, fp, c, e).0)
  {
  }

  lemma StructuredRecovery(s: Settings, fp: string, c: Cell, e: Evaluation)
    requires Structured(s, fp, c) && Active(c)
    ensures Structured(s, fp, Recovery(s, c, e).0)
  {
  }

  lemma StructuredStep(s: Settings, fp: string, c: Cell, a: Action)
    requires Structured(s, fp, c)
    ensures Structured(s, fp, Step(s, fp, c, a))
  {
    if a.Evaluated? {
      var g := c.signal.(lastEvidenceEnd := Some(a.e.evidenceEnd));
      var d := c.(signal := if g.stage.Resolved? then NewSignal(Healthy, Some(a.e.evidenceEnd)) else g);
      assert Structured(s, fp, d);
      StructuredAnomaly(s, fp, d, a.e);
      if Active(d) {
        StructuredRecovery(s, fp, d, a.e);
      }
    }
  }

  lemma {:induction false} EveryReachableCellStructured(s: Settings, fp: string, h: seq<Action>)
    ensures Structured(s, fp, Run(s, fp, h))
  {
    if h != [] {
      EveryReachableCellStructured(s, fp, Front(h));
      StructuredStep(s, fp, Run(s, fp, Front(h)), Last(h));
    }
  }

  /** A manual closure of any incident, linked or stale, keeps the structure exactly when
      the incident is the linked one or the signal is already resolved. */
  lemma CloseKeepsStructureIff(s: Settings, fp: string, c: Cell, id: IncidentId, reason: string)
    requires Structured(s, fp, c) && id in c.incidents
    ensures Structured(s, fp, Close(s, c, id, reason)) <==> c.signal.incidentId == Some(id) || c.signal.stage.Resolved?
  {
    var c' := Close(s, c, id, reason);
    if c.signal.incidentId != Some(id) && Active(c) {
      var other := c.signal.incidentId.value;
      assert c'.incidents[other].stage == c.signal.stage;
    }
  }

  // ---- detection count ------------------------------------------------------

  predicate Anomalous(e: Evaluation) { e.telemetry.Healthy? && e.isAnomaly }

  /** The evaluations that count: those that are neither duplicate evidence nor ignored
      by a running cooldown, since the last manual closure. */
  function Counted(s: Settings, fp: string, h: seq<Action>): seq<Evaluation> {
    if h == [] then []
    else
      var c := Run(s, fp, Front(h));
      match Last(h)
      case ClosedLinked(_) => if Linked(c).Some? then [] else Counted(s, fp, Front(h))
      case Evaluated(e) =>
        if Duplicate(c, e) || InCooldown(c, e) then Counted(s, fp, Front(h))
        else Counted(s, fp, Front(h)) + [e]
  }

  /** The last n of es are all anomalous. */
  predicate LastAnomalous(es: seq<Evaluation>, n: nat) {
    |es| >= n && forall i :: |es| - n <= i < |es| ==> Anomalous(es[i])
  }

  /** How many of the last of es are anomalous in a row. */
  function Streak(es: seq<Evaluation>): (n: nat)
    ensures n <= |es|
  {
    if es == [] || !Anomalous(Last(es)) then 0 else Streak(Front(es)) + 1
  }

  lemma {:induction false} StreakMeaning(es: seq<Evaluation>, n: nat)
    ensures Streak(es) >= n <==> LastAnomalous(es, n)
  {
    if n > 0 && es != [] {
      StreakMeaning(Front(es), n - 1);
      if Anomalous(Last(es)) {
        assert LastAnomalous(es, n) <==> LastAnomalous(Front(es), n - 1) by {
          if LastAnomalous(es, n) {
            forall i | |es| - n <= i < |es| - 1 ensures Anomalous(Front(es)[i]) {
              assert Anomalous(es[i]);
            }
          }
        }
      } else {
        assert !Anomalous(es[|es|-1]);
      }
    }
  }

  ghost predicate CountsStreak(c: Cell, counted: seq<Evaluation>) {
    && (c.signal.stage.Suspected? ==> c.signal.detectionCount == Streak(counted))
    && (c.signal.stage.WarmingUp? || c.signal.stage.Healthy? || c.signal.stage.Resolved? ==> Streak(counted) == 0)
  }

  lemma StreakStep(s: Settings, fp: string, c: Cell, counted: seq<Evaluation>, e: Evaluation)
    requires Structured(s, fp, c) && CountsStreak(c, counted)
    requires !Duplicate(c, e) && !InCooldown(c, e)
    ensures CountsStreak(Apply(s, fp, c, e).0, counted + [e])
  {
    assert Front(counted + [e]) == counted;
  }

  lemma {:induction false} DetectionCountIsStreak(s: Settings, fp: string, h: seq<Action>)
    ensures CountsStreak(Run(s, fp, h), Counted(s, fp, h))
  {
    if h != [] {
      DetectionCountIsStreak(s, fp, Front(h));
      EveryReachableCellStructured(s, fp, Front(h));
      var c := Run(s, fp, Front(h));
      if Last(h).Evaluated? && !Duplicate(c, Last(h).e) && !InCooldown(c, Last(h).e) {
        StreakStep(s, fp, c, Counted(s, fp, Front(h)), Last(h).e);
      }
    }
  }

  /** From a state without an active incident, an incident opens exactly when the last
      detection_persistence_buckets counted evaluations are all anomalous. */
  lemma OpensExactly(s: Settings, fp: string, h: seq<Action>, e: Evaluation)
    requires !Active(Run(s, fp, h))
    ensures Active(Run(s, fp, h + [Evaluated(e)])) <==>
      LastAnomalous(Counted(s, fp, h + [Evaluated(e)]), s.detectionPersistence)
  {
    var h' := h + [Evaluated(e)];
    assert Front(h') == h && Last(h') == Evaluated(e);
    DetectionCountIsStreak(s, fp, h);
    EveryReachableCellStructured(s, fp, h);
    var es := Counted(s, fp, h);
    assert Front(es + [e]) == es;
    StreakMeaning(Counted(s, fp, h'), s.detectionPersistence);
  }

  /** Only an evaluation opens an incident. */
  lemma OnlyEvaluationsOpen(s: Settings, fp: string, c: Cell, a: Action)
    requires !Active(c) && Active(Step(s, fp, c, a))
    ensures a.Evaluated? && Anomalous(a.e)
  {
  }

  // ---- frozen baseline ------------------------------------------------------

  predicate Watching(c: Cell) { c.signal.stage.Suspected? || Active(c) }

  /** The frozen baseline is e's. */
  predicate FrozenFrom(c: Cell, e: Evaluation) {
    c.signal.frozenAttempts == Some(e.baselineAttempts) && c.signal.frozenErrors == Some(e.baselineErrors)
  }

  /** The evaluation that raised the present suspicion: the first of the current streak. */
  function Origin(s: Settings, fp: string, h: seq<Action>): Option<Evaluation> {
    if h == [] || !Watching(Run(s, fp, h)) then None
    else if Watching(Run(s, fp, Front(h))) then Origin(s, fp, Front(h))
    else if Last(h).Evaluated? then Some(Last(h).e) else None
  }

  /** The baseline frozen at the first suspicion is the frozen baseline until resolution. */
  lemma {:induction false} BaselineFrozenAtFirstSuspicion(s: Settings, fp: string, h: seq<Action>)
    requires Watching(Run(s, fp, h))
    ensures Origin(s, fp, h).Some? && FrozenFrom(Run(s, fp, h), Origin(s, fp, h).value)
    ensures Anomalous(Origin(s, fp, h).value)
  {
    EveryReachableCellStructured(s, fp, Front(h));
    if Watching(Run(s, fp, Front(h))) {
      BaselineFrozenAtFirstSuspicion(s, fp, Front(h));
    }
  }

  /** How a step leads to suspicion: it raises it, adds to it, or leaves it alone. */
  lemma SuspectedStep(s: Settings, fp: string, h: seq<Action>)
    requires h != [] && Run(s, fp, h).signal.stage.Suspected?
    ensures var c, a := Run(s, fp, Front(h)), Last(h);
      && (Watching(c) <==> c.signal.stage.Suspected?)
      && (c.signal.stage.Suspected? ==> Origin(s, fp, h) == Origin(s, fp, Front(h)))
      && (!c.signal.stage.Suspected? ==> a.Evaluated? && Origin(s, fp, h) == Some(a.e))
      && Run(s, fp, h).signal.detectionCount > 0
  {
    EveryReachableCellStructured(s, fp, h);
    EveryReachableCellStructured(s, fp, Front(h));
  }

  /** While the signal is suspected, the origin is the first evaluation of the streak. */
  lemma {:induction false} OriginStartsStreak(s: Settings, fp: string, h: seq<Action>)
    requires Run(s, fp, h).signal.stage.Suspected?
    ensures var es := Counted(s, fp, h);
      Streak(es) > 0 && Origin(s, fp, h) == Some(es[|es| - Streak(es)])
  {
    DetectionCountIsStreak(s, fp, h);
    DetectionCountIsStreak(s, fp, Front(h));
    SuspectedStep(s, fp, h);
    var c, es := Run(s, fp, Front(h)), Counted(s, fp, Front(h));
    if c.signal.stage.Suspected? {
      OriginStartsStreak(s, fp, Front(h));
    }
    if Last(h).Evaluated? {
      assert Front(es + [Last(h).e]) == es;
    }
  }

  // ---- recovery count -------------------------------------------------------

  /** A healthy evaluation without an anomaly that passes both recovery bounds. */
  predicate Passing(s: Settings, c: Cell, e: Evaluation) {
    !e.isAnomaly && PassesRecovery(s, e, c.signal.frozenAttempts, c.signal.frozenErrors)
  }

  /** Each healthy evaluation applied to the active incident, with whether it passed. */
  function Watched(s: Settings, fp: string, h: seq<Action>): seq<(Evaluation, bool)> {
    if h == [] then []
    else
      var c := Run(s, fp, Front(h));
      if !Active(c) || Last(h).ClosedLinked? then []
      else
        var e := Last(h).e;
        if Duplicate(c, e) || !e.telemetry.Healthy? then Watched(s, fp, Front(h))
        else Watched(s, fp, Front(h)) + [(e, Passing(s, c, e))]
  }

  predicate LastPassed(es: seq<(Evaluation, bool)>, n: nat) {
    |es| >= n && forall i :: |es| - n <= i < |es| ==> es[i].1
  }

  function Passes(es: seq<(Evaluation, bool)>): (n: nat)
    ensures n <= |es|
  {
    if es == [] || !Last(es).1 then 0 else Passes(Front(es)) + 1
  }

  lemma {:induction false} PassesMeaning(es: seq<(Evaluation, bool)>, n: nat)
    ensures Passes(es) >= n <==> LastPassed(es, n)
  {
    if n > 0 && es != [] {
      PassesMeaning(Front(es), n - 1);
      if Last(es).1 {
        assert LastPassed(es, n) <==> LastPassed(Front(es), n - 1) by {
          if LastPassed(es, n) {
            forall i | |es| - n <= i < |es| - 1 ensures Front(es)[i].1 {
              assert es[i].1;
            }
          }
        }
      } else {
        assert !es[|es|-1].1;
      }
    }
  }

  /** What one evaluation does to the recovery count of an active incident. */
  lemma PassesStep(s: Settings, fp: string, c: Cell, w: seq<(Evaluation, bool)>, e: Evaluation)
    requires Structured(s, fp, c) && Active(c) && c.signal.recoveryCount == Passes(w)
    requires !Duplicate(c, e) && e.telemetry.Healthy?
    ensures var c', w' := Apply(s, fp, c, e).0, w + [(e, Passing(s, c, e))];
      && c'.signal.recoveryCount == Passes(w')
      && (Active(c') <==> Passes(w') < s.recoveryPersistence)
      && (c'.signal.stage.Resolved? <==> Passes(w') >= s.recoveryPersistence)
  {
    var p := Passing(s, c, e);
    assert Front(w + [(e, p)]) == w;
    assert Passes(w + [(e, p)]) == if p then Passes(w) + 1 else 0;
    if e.isAnomaly {
      assert !p;
    } else {
      var d := c.(signal := c.signal.(lastEvidenceEnd := Some(e.evidenceEnd)));
      assert Apply(s, fp, c, e) == Recovery(s, d, e);
    }
  }

  lemma {:induction false} RecoveryCountIsPasses(s: Settings, fp: string, h: seq<Action>)
    requires Active(Run(s, fp, h))
    ensures Run(s, fp, h).signal.recoveryCount == Passes(Watched(s, fp, h))
  {
    EveryReachableCellStructured(s, fp, Front(h));
    var c := Run(s, fp, Front(h));
    if Active(c) {
      RecoveryCountIsPasses(s, fp, Front(h));
      if Last(h).Evaluated? && !Duplicate(c, Last(h).e) && Last(h).e.telemetry.Healthy? {
        PassesStep(s, fp, c, Watched(s, fp, Front(h)), Last(h).e);
      }
    }
  }

  /** An active incident is resolved by an evaluation exactly when the last
      recovery_persistence_buckets watched evaluations all passed. */
  lemma ResolvesExactly(s: Settings, fp: string, h: seq<Action>, e: Evaluation)
    requires Active(Run(s, fp, h))
    ensures Run(s, fp, h + [Evaluated(e)]).signal.stage.Resolved? <==>
      LastPassed(Watched(s, fp, h + [Evaluated(e)]), s.recoveryPersistence)
  {
    var h' := h + [Evaluated(e)];
    assert Front(h') == h && Last(h') == Evaluated(e);
    EveryReachableCellStructured(s, fp, h);
    RecoveryCountIsPasses(s, fp, h);
    var c := Run(s, fp, h);
    if !Duplicate(c, e) && e.telemetry.Healthy? {
      PassesStep(s, fp, c, Watched(s, fp, h), e);
    }
    PassesMeaning(Watched(s, fp, h'), s.recoveryPersistence);
  }

  // ---- soundness of recovery ------------------------------------------------

  /** Healthy and of sufficient volume in both windows; x of n errors with an upper bound
      within the safety ceiling, and against y of m in the baseline of the origin with an
      upper bound of the difference within the residual margin. */
  ghost predicate Recovered(s: Settings, origin: Evaluation, e: Evaluation) {
    var x, n, y, m := e.currentErrors, e.currentAttempts, origin.baselineErrors, origin.baselineAttempts;
    && e.telemetry.Healthy? && !e.isAnomaly
    && n >= s.minCurrentAttempts && e.baselineAttempts >= s.minBaselineAttempts && m > 0
    && Rate(x, n) <= s.safetyCeiling && Rate(x, n) - Rate(y, m) <= s.residualMargin
    && BoundsFor(s, x, n, y, m)
  }

  ghost predicate BoundsFor(s: Settings, x: nat, n: nat, y: nat, m: nat)
    requires n > 0 && m > 0
  {
    forall sd, sdc ::
      && Statistics.IsRoot(sd, Statistics.RateVariance(x, n) + Statistics.RateVariance(y, m))
      && Statistics.IsRoot(sdc, Statistics.RateVariance(x, n)) ==>
        Statistics.DifferenceBound(s, x, n, y, m, sd) && Statistics.CurrentBound(s, x, n, sdc)
  }

  lemma PassedRecovered(s: Settings, origin: Evaluation, e: Evaluation)
    requires !e.isAnomaly && PassesRecovery(s, e, Some(origin.baselineAttempts), Some(origin.baselineErrors))
    ensures Recovered(s, origin, e)
  {
    var x, n, y, m := e.currentErrors, e.currentAttempts, origin.baselineErrors, origin.baselineAttempts;
    forall sd, sdc |
      && Statistics.IsRoot(sd, Statistics.RateVariance(x, n) + Statistics.RateVariance(y, m))
      && Statistics.IsRoot(sdc, Statistics.RateVariance(x, n))
      ensures Statistics.DifferenceBound(s, x, n, y, m, sd) && Statistics.CurrentBound(s, x, n, sdc)
    {
      Statistics.RecoveryIsBounds(s, e, x, n, y, m, sd, sdc);
    }
  }

  /** Every evaluation counted as passing recovered towards the baseline of the origin. */
  lemma {:induction false} WatchedSound(s: Settings, fp: string, h: seq<Action>, i: nat)
    requires Active(Run(s, fp, h)) && i < |Watched(s, fp, h)| && Watched(s, fp, h)[i].1
    ensures Origin(s, fp, h).Some? && Recovered(s, Origin(s, fp, h).value, Watched(s, fp, h)[i].0)
  {
    var c, w := Run(s, fp, Front(h)), Watched(s, fp, Front(h));
    BaselineFrozenAtFirstSuspicion(s, fp, Front(h));
    if i < |w| {
      WatchedSound(s, fp, Front(h), i);
    } else {
      PassedRecovered(s, Origin(s, fp, Front(h)).value, Last(h).e);
    }
  }

  /** An incident that was resolved automatically had at least
      recovery_persistence_buckets evaluations in a row that recovered towards the one
      baseline frozen at its first suspicion. */
  lemma AutomaticResolutionSound(s: Settings, fp: string, h: seq<Action>, e: Evaluation)
    requires Active(Run(s, fp, h)) && Run(s, fp, h + [Evaluated(e)]).signal.stage.Resolved?
    ensures Origin(s, fp, h).Some?
    ensures |Watched(s, fp, h + [Evaluated(e)])| >= s.recoveryPersistence
    ensures var w := Watched(s, fp, h + [Evaluated(e)]);
      forall i :: |w| - s.recoveryPersistence <= i < |w| ==> Recovered(s, Origin(s, fp, h).value, w[i].0)
  {
    var h' := h + [Evaluated(e)];
    assert Front(h') == h && Last(h') == Evaluated(e);
    ResolvesExactly(s, fp, h, e);
    BaselineFrozenAtFirstSuspicion(s, fp, h);
    EveryReachableCellStructured(s, fp, h);
    var w := Watched(s, fp, h');
    forall i | |w| - s.recoveryPersistence <= i < |w| ensures Recovered(s, Origin(s, fp, h).value, w[i].0) {
      assert w[i].1;
      if i < |Watched(s, fp, h)| {
        WatchedSound(s, fp, h, i);
      } else {
        PassedRecovered(s, Origin(s, fp, h).value, e);
      }
    }
  }

  // ---- cooldown -------------------------------------------------------------

  /** Evaluation times never decrease along the history. */
  predicate TimesAscend(h: seq<Action>) {
    forall i, j :: 0 <= i < j < |h| && h[i].Evaluated? && h[j].Evaluated? ==> h[i].e.evaluatedAt <= h[j].e.evaluatedAt
  }

  /** The cooldown of a resolved signal runs from the last update of its incident. */
  predicate CooldownExact(s: Settings, c: Cell) {
    c.signal.stage.Resolved? ==>
      Linked(c).Some? && c.signal.cooldownUntil == Some(Linked(c).value.updatedAt + s.Cooldown())
  }

  lemma {:induction false} CooldownAlwaysExact(s: Settings, fp: string, h: seq<Action>)
    ensures CooldownExact(s, Run(s, fp, h))
  {
    if h != [] {
      CooldownAlwaysExact(s, fp, Front(h));
      EveryReachableCellStructured(s, fp, Front(h));
      CooldownExactStep(s, fp, Run(s, fp, Front(h)), Last(h));
    }
  }

  lemma CooldownExactStep(s: Settings, fp: string, c: Cell, a: Action)
    requires Structured(s, fp, c) && CooldownExact(s, c)
    ensures CooldownExact(s, Step(s, fp, c, a))
  {
  }

  /** A resolved signal keeps its cooldown end until an evaluation at or after it. */
  lemma CooldownStep(s: Settings, fp: string, c: Cell, a: Action)
    requires Structured(s, fp, c) && CooldownExact(s, c) && c.signal.stage.Resolved?
    ensures var c' := Step(s, fp, c, a);
      || (c'.signal.stage.Resolved? && c'.signal.cooldownUntil == c.signal.cooldownUntil)
      || (a.Evaluated? && a.e.evaluatedAt >= c.signal.cooldownUntil.value)
  {
  }

  ghost predicate Reached(h: seq<Action>, k: nat, until: int) {
    exists j :: k <= j < |h| && h[j].Evaluated? && h[j].e.evaluatedAt >= until
  }

  lemma {:induction false} CooldownHolds(s: Settings, fp: string, h: seq<Action>, k: nat)
    requires k <= |h| && Run(s, fp, h[..k]).signal.stage.Resolved?
    ensures Run(s, fp, h[..k]).signal.cooldownUntil.Some?
    ensures var c, until := Run(s, fp, h), Run(s, fp, h[..k]).signal.cooldownUntil.value;
      (c.signal.stage.Resolved? && c.signal.cooldownUntil == Some(until)) || Reached(h, k, until)
    decreases |h|
  {
    CooldownAlwaysExact(s, fp, h[..k]);
    if k == |h| {
      assert h[..k] == h;
    } else {
      assert Front(h)[..k] == h[..k];
      CooldownHolds(s, fp, Front(h), k);
      var until := Run(s, fp, h[..k]).signal.cooldownUntil.value;
      if Reached(Front(h), k, until) {
        var j :| k <= j < |h| - 1 && Front(h)[j].Evaluated? && Front(h)[j].e.evaluatedAt >= until;
        assert h[j] == Front(h)[j];
      } else {
        EveryReachableCellStructured(s, fp, Front(h));
        CooldownAlwaysExact(s, fp, Front(h));
        CooldownStep(s, fp, Run(s, fp, Front(h)), Last(h));
        assert Last(h) == h[|h|-1];
      }
    }
  }

  /** With evaluation times that never decrease, no incident opens before the end of any
      earlier cooldown. */
  lemma NoOpenBeforeCooldownEnds(s: Settings, fp: string, h: seq<Action>, e: Evaluation, k: nat)
    requires k <= |h| && TimesAscend(h + [Evaluated(e)])
    requires Run(s, fp, h[..k]).signal.stage.Resolved?
    requires !Active(Run(s, fp, h)) && Active(Run(s, fp, h + [Evaluated(e)]))
    ensures Run(s, fp, h[..k]).signal.cooldownUntil.Some?
    ensures e.evaluatedAt >= Run(s, fp, h[..k]).signal.cooldownUntil.value
  {
    var h' := h + [Evaluated(e)];
    assert Front(h') == h && Last(h') == Evaluated(e);
    CooldownHolds(s, fp, h, k);
    var until := Run(s, fp, h[..k]).signal.cooldownUntil.value;
    if Reached(h, k, until) {
      var j :| k <= j < |h| && h[j].Evaluated? && h[j].e.evaluatedAt >= until;
      assert h'[j] == h[j] && h'[j].e.evaluatedAt <= h'[|h|].e.evaluatedAt;
    } else {
      EveryReachableCellStructured(s, fp, h);
      CooldownAlwaysExact(s, fp, h);
      CooldownStep(s, fp, Run(s, fp, h), Evaluated(e));
    }
  }

  // ---- versions -----------------------------------------------------------------

  /** The evaluation is a recovery check that fails. */
  predicate FailsRecovery(s: Settings, c: Cell, e: Evaluation) {
    && !Duplicate(c, e) && e.telemetry.Healthy? && !e.isAnomaly && Active(c)
    && !PassesRecovery(s, e, c.signal.frozenAttempts, c.signal.frozenErrors)
  }

  /** An evaluation that changes a stored incident raises its version by one, except that
      a failed recovery check changes the linked incident under its old version. */
  lemma ChangesRaiseVersion(s: Settings, fp: string, c: Cell, e: Evaluation, id: IncidentId)
    requires Structured(s, fp, c) && id in c.incidents
    ensures var c' := Apply(s, fp, c, e).0;
      && id in c'.incidents
      && (c'.incidents[id].version == c.incidents[id].version <==>
            c'.incidents[id] == c.incidents[id] || (FailsRecovery(s, c, e) && c.signal.incidentId == Some(id)))
      && (c'.incidents[id].version != c.incidents[id].version ==>
            c'.incidents[id].version == c.incidents[id].version + 1)
  {
  }

  /** It does change it, whenever the evaluation is not from the very moment of the last
      change: so two different incidents go by one version. */
  lemma FailedCheckKeepsVersion(s: Settings, fp: string, c: Cell, e: Evaluation)
    requires Structured(s, fp, c) && FailsRecovery(s, c, e)
    ensures Linked(c).Some?
    ensures var id, c' := c.signal.incidentId.value, Apply(s, fp, c, e).0;
      && Linked(c') == Some(c.incidents[id].(stage := Open, updatedAt := e.evaluatedAt))
      && (Linked(c') == Linked(c) <==> c.signal.stage.Open? && e.evaluatedAt == c.incidents[id].updatedAt)
  {
  }
}
