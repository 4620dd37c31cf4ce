/** What a snapshot says of the events counted so far. */
module Snapshots {
  import opened Lists
  import opened Options
  import opened Config
  import opened Folds
  import opened Rollups
  import opened Aggregation
  import opened Pipeline
  import opened Ledger
  import Conservation

  // ---- the latest event -----------------------------------------------------

  lemma IngestLatest(s: Settings, a: Aggregate, log: seq<PaymentEvent>, e: PaymentEvent)
    requires IsLatest(log, a.latest) && !TooLate(s, a.latest, e.at)
    ensures IsLatest(log + [e], Ingest(s, a, e).0.latest)
  {
    assert e in log + [e];
    if a.latest.Some? {
      var f :| f in log && f.at == a.latest.value;
      assert f in log + [e];
    }
  }

  lemma {:induction false} IngestAllLatest(s: Settings, a: Aggregate, log: seq<PaymentEvent>, es: seq<PaymentEvent>)
    requires IsLatest(log, a.latest)
    ensures IsLatest(log + Taken(s, a, es), IngestAll(s, a, es).latest)
    decreases |es|
  {
    if es == [] {
      assert log + [] == log;
    } else {
      IngestAllLatest(s, a, log, Front(es));
      var b, taken := IngestAll(s, a, Front(es)), log + Taken(s, a, Front(es));
      if !TooLate(s, b.latest, Last(es).at) {
        IngestLatest(s, b, taken, Last(es));
        assert log + Taken(s, a, es) == taken + [Last(es)];
      }
    }
  }

  lemma {:induction false} LogIsTaken(s: Settings, es: seq<PaymentEvent>)
    ensures Run(s, es) == IngestAll(s, EMPTY, es) && Log(s, es) == Taken(s, EMPTY, es)
  {
    if es != [] {
      LogIsTaken(s, Front(es));
    }
  }

  // ---- windows over buckets that may be pruned --------------------------------

  /** The events whose bucket starts at one of ks. */
  function Gathered(d: int, log: seq<PaymentEvent>, ks: set<int>): seq<PaymentEvent>
    requires d > 0
  {
    if log == [] then []
    else
      var rest := Gathered(d, Front(log), ks);
      if BucketStart(d, Last(log).at) in ks then rest + [Last(log)] else rest
  }

  lemma {:induction false} GatheredOne(d: int, log: seq<PaymentEvent>, k: int)
    requires d > 0
    ensures Gathered(d, log, {k}) == Covered(d, log, k, k + d)
  {
    if log != [] {
      GatheredOne(d, Front(log), k);
    }
  }

  lemma {:induction false} GatheredSplits(d: int, log: seq<PaymentEvent>, ks: set<int>, k: int)
    requires d > 0 && k in ks
    ensures multiset(Gathered(d, log, ks)) == multiset(Gathered(d, log, ks - {k}) + Gathered(d, log, {k}))
  {
    if log != [] {
      GatheredSplits(d, Front(log), ks, k);
    }
  }

  lemma {:induction false} GatheredInside(d: int, log: seq<PaymentEvent>, ks: set<int>, lo: int, hi: int)
    requires d > 0
    requires forall e :: e in log ==> (BucketStart(d, e.at) in ks <==> Inside(d, BucketStart(d, e.at), lo, hi))
    ensures Gathered(d, log, ks) == Covered(d, log, lo, hi)
  {
    if log != [] {
      assert log == Front(log) + [Last(log)];
      GatheredInside(d, Front(log), ks, lo, hi);
    }
  }

  /** Buckets that are recounts add up to the recount of their events. */
  lemma {:induction false} FoldGathered(d: int, log: seq<PaymentEvent>, bs: map<int, Rollup>)
    requires d > 0 && forall k :: k in bs ==> bs[k] == Recount(Gathered(d, log, {k}))
    ensures Fold(bs, Merge, map[]) == Recount(Gathered(d, log, bs.Keys))
    decreases |bs|
  {
    if bs == map[] {
      GatheredNone(d, log);
    } else {
      var k := KeyOf(bs);
      MergeMonoid();
      FoldOut(bs, k, Merge, map[]);
      FoldGathered(d, log, bs - {k});
      assert (bs - {k}).Keys == bs.Keys - {k};
      GatheredSplits(d, log, bs.Keys, k);
      var rest, own := Gathered(d, log, bs.Keys - {k}), Gathered(d, log, {k});
      Conservation.RecountConcat(rest, own);
      RecountOrderFree(Gathered(d, log, bs.Keys), rest + own);
    }
  }

  lemma {:induction false} GatheredNone(d: int, log: seq<PaymentEvent>)
    requires d > 0
    ensures Gathered(d, log, {}) == []
  {
    if log != [] {
      GatheredNone(d, Front(log));
    }
  }

  /** A window that reads no expired bucket is the recount of its logged events. */
  lemma FaithfulWindow(s: Settings, a: Aggregate, log: seq<PaymentEvent>, lo: int, hi: int)
    requires Faithful(s, a, log) && !Expired(s, a.latest, lo + s.Bucket())
    ensures Window(s.Bucket(), a.buckets, lo, hi) == Recount(Covered(s.Bucket(), log, lo, hi))
  {
    var d := s.Bucket();
    var bs := BucketsInside(d, a.buckets, lo, hi);
    forall k | k in bs ensures bs[k] == Recount(Gathered(d, log, {k})) {
      assert BucketExact(d, a, log, k);
      GatheredOne(d, log, k);
    }
    FoldGathered(d, log, bs);
    forall e | e in log ensures BucketStart(d, e.at) in bs.Keys <==> Inside(d, BucketStart(d, e.at), lo, hi) {
      assert HasBucket(s, a, e);
    }
    GatheredInside(d, log, bs.Keys, lo, hi);
  }

  /** The current window ends with the last full bucket before asOf, and the baseline where the
      current window begins. */
  lemma WindowBounds(s: Settings, asOf: int)
    ensures End(s, asOf) % (s.bucketSeconds * 1_000_000) == 0
    ensures End(s, asOf) <= asOf < End(s, asOf) + s.bucketSeconds * 1_000_000
    ensures Mid(s, asOf) == End(s, asOf) - s.currentSeconds * 1_000_000
    ensures Begin(s, asOf) == Mid(s, asOf) - s.baselineSeconds * 1_000_000
  {
    BucketHolds(s.Bucket(), asOf);
    Multiple(s.Bucket(), asOf / s.Bucket());
  }

  // ---- a snapshot -------------------------------------------------------------

  lemma {:induction false} CountAll(es: seq<PaymentEvent>)
    ensures CountIf(es, InSlot(Overall)) == |es|
  {
    if es != [] {
      CountAll(es[..|es|-1]);
    }
  }

  /** The technical errors among es. */
  function Failures(es: seq<PaymentEvent>): nat { CountIf(es, Conservation.Failed) }

  /** The counters of a window: all its events, and its technical errors. */
  lemma OverallCounts(es: seq<PaymentEvent>)
    ensures Get(Recount(es), Overall).attempts == |es| && Get(Recount(es), Overall).errors == Failures(es)
  {
    RecountCounts(es, Overall);
    CountAll(es);
    SameCount(es, FailedIn(Overall), Conservation.Failed);
  }

  /** Some logged event is no older than the staleness limit allows. */
  predicate Recent(s: Settings, log: seq<PaymentEvent>, asOf: int) {
    exists e :: e in log && asOf - e.at <= s.staleAfterSeconds * MICROS
  }

  /** What a snapshot at asOf says of the log: the times, the counts of the two windows, and
      the state of telemetry. */
  ghost predicate Tells(s: Settings, log: seq<PaymentEvent>, asOf: int, shot: Snapshot) {
    var current, baseline := Between(log, Mid(s, asOf), End(s, asOf)), Between(log, Begin(s, asOf), Mid(s, asOf));
    var enough := |baseline| >= s.baselineRequiredSamples && |baseline| >= s.minBaselineAttempts;
    && shot.generatedAt == asOf && shot.evidenceEnd == End(s, asOf)
    && Get(shot.current, Overall).attempts == |current| && Get(shot.current, Overall).errors == Failures(current)
    && Get(shot.baseline, Overall).attempts == |baseline| && Get(shot.baseline, Overall).errors == Failures(baseline)
    && (shot.baselineReady <==> enough)
    && (shot.telemetry.Unknown? <==> current == [])
    && (shot.telemetry.Stale? <==> current != [] && !Recent(s, log, asOf))
    && (shot.telemetry.Healthy? <==> |current| >= s.minCurrentAttempts && enough && Recent(s, log, asOf))
    && (shot.telemetry.WarmingUp? <==>
          current != [] && Recent(s, log, asOf) && !(|current| >= s.minCurrentAttempts && enough))
  }

  lemma {:induction false} BetweenFrom(es: seq<PaymentEvent>, lo: int, hi: int)
    ensures forall e :: e in Between(es, lo, hi) ==> e in es
  {
    if es != [] {
      BetweenFrom(Front(es), lo, hi);
      assert es == Front(es) + [Last(es)];
    }
  }

  lemma RecentIsLatest(s: Settings, log: seq<PaymentEvent>, latest: Option<int>, asOf: int)
    requires IsLatest(log, latest)
    ensures Recent(s, log, asOf) <==> latest.Some? && asOf - latest.value <= s.staleAfterSeconds * MICROS
  {
  }

  lemma SnapshotTells(s: Settings, a: Aggregate, log: seq<PaymentEvent>, asOf: int)
    requires IsLatest(log, a.latest)
    requires var shot := TakeSnapshot(s, a, asOf).1;
      && shot.current == Recount(Between(log, Mid(s, asOf), End(s, asOf)))
      && shot.baseline == Recount(Between(log, Begin(s, asOf), Mid(s, asOf)))
    ensures Tells(s, log, asOf, TakeSnapshot(s, a, asOf).1)
  {
    OverallCounts(Between(log, Mid(s, asOf), End(s, asOf)));
    OverallCounts(Between(log, Begin(s, asOf), Mid(s, asOf)));
    RecentIsLatest(s, log, a.latest, asOf);
    BetweenFrom(log, Mid(s, asOf), End(s, asOf));
    if Between(log, Mid(s, asOf), End(s, asOf)) != [] {
      assert Between(log, Mid(s, asOf), End(s, asOf))[0] in log;
    }
  }

  /** After any ingest sequence, whatever the time of the snapshot. */
  lemma RunSnapshotTells(s: Settings, es: seq<PaymentEvent>, asOf: int)
    requires Divides(s)
    ensures Tells(s, Log(s, es), asOf, TakeSnapshot(s, Run(s, es), asOf).1)
  {
    RunSnapshotIsRecount(s, es, asOf);
    LogIsTaken(s, es);
    IngestAllLatest(s, EMPTY, [], es);
    assert [] + Log(s, es) == Log(s, es);
    SnapshotTells(s, Run(s, es), Log(s, es), asOf);
  }

  /** From any buckets that are faithful to a log, pruned or not, when the snapshot is timely. */
  lemma FaithfulSnapshotTells(s: Settings, a: Aggregate, log: seq<PaymentEvent>, asOf: int)
    requires Divides(s) && Faithful(s, a, log) && IsLatest(log, a.latest) && Timely(s, a.latest, asOf)
    ensures Tells(s, log, asOf, TakeSnapshot(s, a, asOf).1)
  {
    BoundsAligned(s, asOf);
    FaithfulWindow(s, a, log, Mid(s, asOf), End(s, asOf));
    FaithfulWindow(s, a, log, Begin(s, asOf), Mid(s, asOf));
    CoveredIsBetween(s.Bucket(), log, Mid(s, asOf), End(s, asOf));
    CoveredIsBetween(s.Bucket(), log, Begin(s, asOf), Mid(s, asOf));
    SnapshotTells(s, a, log, asOf);
  }

  // ---- dispositions ---------------------------------------------------------------

  /** Some event is this much later than e. */
  predicate Behind(es: seq<PaymentEvent>, e: PaymentEvent, gap: int) { exists f :: f in es && f.at - e.at > gap }

  /** An event is dropped exactly when one before it is more than the lateness ahead, and called
      late when one is ahead at all. */
  lemma DispositionTells(s: Settings, es: seq<PaymentEvent>, e: PaymentEvent)
    ensures var d := Ingest(s, Run(s, es), e).1;
      && (d.DroppedTooLate? <==> Behind(es, e, s.latenessSeconds * MICROS))
      && (d.AcceptedLate? <==> Behind(es, e, 0) && !Behind(es, e, s.latenessSeconds * MICROS))
  {
    LatestIsMaximum(s, es);
  }
}
