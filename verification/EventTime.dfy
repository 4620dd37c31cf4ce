/** The mutable counter and the event-time aggregator. */
module EventTime {
  import opened Options
  import opened Config
  import opened Folds
  import opened Rollups
  import opened Aggregation

  lemma CodesPlusOne(codes: map<string, nat>, code: string)
    ensures AddCodes(codes, map[]) == codes
    ensures AddCodes(codes, map[code := 1]) == codes[code := At(codes, code, 0) + 1]
  {
  }

  class AggregateCounter {
    var attempts: nat
    var approved: nat
    var declined: nat
    var errors: nat
    var codes: map<string, nat>
    var latencies: seq<real>

    ghost function Value(): Counter
      reads this
    {
      Counter(attempts, approved, declined, errors, codes, multiset(latencies))
    }

    constructor ()
      ensures Value() == ZERO
    {
      attempts, approved, declined, errors := 0, 0, 0, 0;
      codes, latencies := map[], [];
    }

    method Add(e: PaymentEvent)
      modifies this
      ensures Value() == Plus(old(Value()), One(e))
      ensures latencies == old(latencies) + [e.latency]
    {
      CodesPlusOne(codes, e.code);
      attempts := attempts + 1;
      latencies := latencies + [e.latency];
      if e.outcome.Approved? {
        approved := approved + 1;
      } else if e.outcome.BusinessDecline? {
        declined := declined + 1;
      } else {
        errors := errors + 1;
        codes := codes[e.code := At(codes, e.code, 0) + 1];
      }
    }

    method Merge(other: AggregateCounter)
      requires other != this
      modifies this
      ensures Value() == Plus(old(Value()), other.Value())
      ensures latencies == old(latencies) + other.latencies
    {
      attempts := attempts + other.attempts;
      approved := approved + other.approved;
      declined := declined + other.declined;
      errors := errors + other.errors;
      latencies := latencies + other.latencies;
      codes := MergeInto(codes, other.codes, AddNat, 0);
    }

    method Clone() returns (copy: AggregateCounter)
      ensures fresh(copy) && copy.Value() == Value() && copy.latencies == latencies
    {
      copy := new AggregateCounter();
      copy.attempts, copy.approved, copy.declined, copy.errors := attempts, approved, declined, errors;
      copy.codes, copy.latencies := codes, latencies;
    }
  }

  /** Counts one event in its five slots, creating those that are new. */
  method AddToBucket(bucket: Rollup, e: PaymentEvent) returns (r: Rollup)
    ensures r == Rollups.Merge(bucket, OneRollup(e))
  {
    PlusUnit(One(e));
    r := AddAtEach(bucket, SlotsOf(e), One(e), Plus, ZERO);
  }

  /** Merges the counters of one bucket into a window, slot by slot. */
  method MergeBucket(window: Rollup, bucket: Rollup) returns (r: Rollup)
    ensures r == Rollups.Merge(window, bucket)
  {
    forall s | s in bucket ensures Plus(ZERO, bucket[s]) == bucket[s] {
      PlusUnit(bucket[s]);
    }
    r := MergeInto(window, bucket, Plus, ZERO);
  }

  class EventTimeAggregator {
    const settings: Settings
    var buckets: map<int, Rollup>
    var latest: Option<int>
    var lateCount: nat
    var version: nat

    ghost function State(): Aggregate
      reads this
    {
      Aggregate(buckets, latest, lateCount, version)
    }

    constructor (settings: Settings)
      ensures this.settings == settings && State() == EMPTY
    {
      this.settings := settings;
      buckets, latest, lateCount, version := map[], None, 0, 0;
    }

    method Ingest(e: PaymentEvent) returns (disposition: Disposition)
      modifies this
      ensures (State(), disposition) == Aggregation.Ingest(settings, old(State()), e)
    {
      disposition := Accepted;
      if latest.Some? && e.at < latest.value {
        var lateness := latest.value - e.at;
        if lateness > settings.Lateness() {
          lateCount := lateCount + 1;
          return DroppedTooLate;
        }
        disposition := AcceptedLate;
      }
      if latest.None? || e.at > latest.value {
        latest := Some(e.at);
      }
      var start := BucketStart(settings.Bucket(), e.at);
      var bucket := AddToBucket(At(buckets, start, map[]), e);
      buckets := buckets[start := bucket];
    }

    method MergeWindow(lo: int, hi: int) returns (window: Rollup)
      ensures window == Window(settings.Bucket(), buckets, lo, hi)
    {
      window := map[];
      var todo := buckets;
      var d := settings.Bucket();
      MergeMonoid();
      ghost var all := Window(d, buckets, lo, hi);
      assert Commutes(Rollups.Merge, map[], all) && Neutral(Rollups.Merge, all, map[]);
      while todo != map[]
        invariant Rollups.Merge(window, Window(d, todo, lo, hi)) == all
        decreases |todo|
      {
        var k := SomeKey(todo);
        var rest := todo - {k};
        if Inside(d, k, lo, hi) {
          WindowOut(d, todo, k, lo, hi);
          ghost var was, left := window, Window(d, rest, lo, hi);
          assert Associates(Rollups.Merge, was, todo[k], left) && Commutes(Rollups.Merge, todo[k], left);
          window := MergeBucket(window, todo[k]);
        } else {
          assert BucketsInside(d, rest, lo, hi) == BucketsInside(d, todo, lo, hi);
        }
        todo := rest;
      }
      assert BucketsInside(d, map[], lo, hi) == map[];
      assert Neutral(Rollups.Merge, window, map[]);
    }

    method Snapshot(asOf: int) returns (shot: Aggregation.Snapshot)
      modifies this`version
      ensures (State(), shot) == TakeSnapshot(settings, old(State()), asOf)
    {
      var end, currentStart, baselineStart := End(settings, asOf), Mid(settings, asOf), Begin(settings, asOf);
      var current := MergeWindow(currentStart, end);
      var baseline := MergeWindow(baselineStart, currentStart);
      var ready := Ready(settings, baseline);
      var telemetry := TelemetryState(settings, latest, asOf, current, ready);
      version := version + 1;
      shot := Aggregation.Snapshot(version, asOf, end, telemetry, ready, current, baseline, lateCount);
    }

    /** The checkpoint: every bucket the retention bound does not exclude. */
    method ExportState() returns (payload: Aggregate)
      ensures payload == Export(settings, State())
    {
      var kept := KeepWhere(buckets, RetainedBy(settings, latest));
      payload := Aggregate(kept, latest, lateCount, version);
    }

    method ImportState(payload: Aggregate)
      modifies this
      ensures State() == payload
    {
      buckets := payload.buckets;
      latest := payload.latest;
      lateCount := payload.lateCount;
      version := payload.version;
    }
  }

  lemma WindowOut(d: int, buckets: map<int, Rollup>, k: int, lo: int, hi: int)
    requires k in buckets && Inside(d, k, lo, hi)
    ensures Window(d, buckets, lo, hi) == Rollups.Merge(Window(d, buckets - {k}, lo, hi), buckets[k])
  {
    MergeMonoid();
    FoldOut(BucketsInside(d, buckets, lo, hi), k, Rollups.Merge, map[]);
    assert BucketsInside(d, buckets, lo, hi) - {k} == BucketsInside(d, buckets - {k}, lo, hi);
  }
}
