/** Buckets against a ledger of the events counted so far. */
module Ledger {
  import opened Lists
  import opened Options
  import opened Config
  import opened Rollups
  import opened Aggregation
  import opened Pipeline
  import Conservation

  /** The events of es that are accepted when they are ingested into a in order. */
  function Taken(s: Settings, a: Aggregate, es: seq<PaymentEvent>): seq<PaymentEvent> {
    if es == [] then []
    else
      var rest := Taken(s, a, Front(es));
      if TooLate(s, IngestAll(s, a, Front(es)).latest, Last(es).at) then rest else rest + [Last(es)]
  }

  predicate BucketExact(d: int, a: Aggregate, log: seq<PaymentEvent>, k: int)
    requires d > 0
  {
    k in a.buckets ==> a.buckets[k] == Recount(Covered(d, log, k, k + d))
  }

  /** Where buckets are exact, every bucket and every window conserves its counts. */
  lemma ExactConserved(d: int, a: Aggregate, log: seq<PaymentEvent>, lo: int, hi: int)
    requires d > 0 && forall k :: BucketExact(d, a, log, k)
    ensures forall k :: k in a.buckets ==> Conservation.Conserved(a.buckets[k])
    ensures Conservation.Conserved(Window(d, a.buckets, lo, hi))
  {
    forall k | k in a.buckets ensures Conservation.IsRecount(a.buckets[k]) && Conservation.Conserved(a.buckets[k]) {
      assert BucketExact(d, a, log, k);
      Conservation.RecountConserved(a.buckets[k]);
    }
    Conservation.MergedIsRecount(BucketsInside(d, a.buckets, lo, hi));
    Conservation.RecountConserved(Window(d, a.buckets, lo, hi));
  }

  /** Before the retention bound: nothing accepted later can land here. */
  predicate Expired(s: Settings, latest: Option<int>, end: int) {
    latest.Some? && end < latest.value - s.Retention()
  }

  /** Every bucket held is the exact recount of the ledger, and every event of the ledger
      has its bucket unless that bucket expired. */
  ghost predicate Faithful(s: Settings, a: Aggregate, log: seq<PaymentEvent>) {
    && (forall k :: BucketExact(s.Bucket(), a, log, k))
    && (forall e :: e in log ==> HasBucket(s, a, e))
  }

  predicate HasBucket(s: Settings, a: Aggregate, e: PaymentEvent) {
    var k := BucketStart(s.Bucket(), e.at);
    k in a.buckets || Expired(s, a.latest, k + s.Bucket())
  }

  predicate Distinct(log: seq<PaymentEvent>) {
    forall i, j :: 0 <= i < j < |log| ==> log[i].id != log[j].id
  }

  lemma {:induction false} CoveredEmpty(d: int, log: seq<PaymentEvent>, lo: int, hi: int)
    requires d > 0
    requires forall e :: e in log ==> !Inside(d, BucketStart(d, e.at), lo, hi)
    ensures Covered(d, log, lo, hi) == []
  {
    if log != [] {
      CoveredEmpty(d, Front(log), lo, hi);
    }
  }

  lemma CoveredSnoc(d: int, log: seq<PaymentEvent>, e: PaymentEvent, lo: int, hi: int)
    requires d > 0
    ensures Recount(Covered(d, log + [e], lo, hi)) ==
      if Inside(d, BucketStart(d, e.at), lo, hi) then Merge(Recount(Covered(d, log, lo, hi)), OneRollup(e))
      else Recount(Covered(d, log, lo, hi))
  {
    assert Front(log + [e]) == log && Last(log + [e]) == e;
    var c := Covered(d, log, lo, hi);
    assert (c + [e])[..|c|] == c;
  }

  /** The recount of one bucket, with one more event in the ledger. */
  lemma OwnBucketSnoc(d: int, log: seq<PaymentEvent>, e: PaymentEvent, k: int)
    requires d > 0
    ensures Recount(Covered(d, log + [e], k, k + d)) ==
      if k == BucketStart(d, e.at) then Merge(Recount(Covered(d, log, k, k + d)), OneRollup(e))
      else Recount(Covered(d, log, k, k + d))
    ensures Covered(d, log, k, k + d) == [] ==> Recount(Covered(d, log, k, k + d)) == map[]
  {
    CoveredSnoc(d, log, e, k, k + d);
  }

  lemma BucketAfter(s: Settings, a: Aggregate, e: PaymentEvent, k: int, before: Rollup, after: Rollup)
    requires !TooLate(s, a.latest, e.at)
    requires k in a.buckets ==> a.buckets[k] == before
    requires k == BucketStart(s.Bucket(), e.at) && k !in a.buckets ==> before == map[]
    requires after == if k == BucketStart(s.Bucket(), e.at) then Merge(before, OneRollup(e)) else before
    ensures k in Ingest(s, a, e).0.buckets ==> Ingest(s, a, e).0.buckets[k] == after
  {
  }

  lemma BucketExactStep(s: Settings, a: Aggregate, log: seq<PaymentEvent>, e: PaymentEvent, k: int)
    requires BucketExact(s.Bucket(), a, log, k) && !TooLate(s, a.latest, e.at)
    requires k == BucketStart(s.Bucket(), e.at) && k !in a.buckets ==> Covered(s.Bucket(), log, k, k + s.Bucket()) == []
    ensures BucketExact(s.Bucket(), Ingest(s, a, e).0, log + [e], k)
  {
    var d := s.Bucket();
    var before, after := Recount(Covered(d, log, k, k + d)), Recount(Covered(d, log + [e], k, k + d));
    OwnBucketSnoc(d, log, e, k);
    BucketAfter(s, a, e, k, before, after);
  }

  /** Where e starts a new bucket, no event was counted before. */
  lemma NothingMissed(s: Settings, a: Aggregate, log: seq<PaymentEvent>, e: PaymentEvent)
    requires Faithful(s, a, log) && !TooLate(s, a.latest, e.at)
    requires BucketStart(s.Bucket(), e.at) !in a.buckets
    ensures var k := BucketStart(s.Bucket(), e.at); Covered(s.Bucket(), log, k, k + s.Bucket()) == []
  {
    var d, k := s.Bucket(), BucketStart(s.Bucket(), e.at);
    BucketHolds(d, e.at);
    forall f | f in log ensures !Inside(d, BucketStart(d, f.at), k, k + d) {
      assert HasBucket(s, a, f);
    }
    CoveredEmpty(d, log, k, k + d);
  }

  lemma IngestFaithful(s: Settings, a: Aggregate, log: seq<PaymentEvent>, e: PaymentEvent)
    requires Faithful(s, a, log) && !TooLate(s, a.latest, e.at)
    ensures Faithful(s, Ingest(s, a, e).0, log + [e])
  {
    if BucketStart(s.Bucket(), e.at) !in a.buckets {
      NothingMissed(s, a, log, e);
    }
    forall k ensures BucketExact(s.Bucket(), Ingest(s, a, e).0, log + [e], k) {
      assert BucketExact(s.Bucket(), a, log, k);
      BucketExactStep(s, a, log, e, k);
    }
    forall f | f in log + [e] ensures HasBucket(s, Ingest(s, a, e).0, f) {
      assert f in log ==> HasBucket(s, a, f);
    }
  }

  lemma ExportFaithful(s: Settings, a: Aggregate, log: seq<PaymentEvent>)
    requires Faithful(s, a, log)
    ensures Faithful(s, Export(s, a), log)
  {
    forall k ensures BucketExact(s.Bucket(), Export(s, a), log, k) {
      assert BucketExact(s.Bucket(), a, log, k);
    }
    forall e | e in log ensures HasBucket(s, Export(s, a), e) {
      assert HasBucket(s, a, e);
    }
  }

  lemma {:induction false} IngestAllFaithful(s: Settings, a: Aggregate, log: seq<PaymentEvent>, es: seq<PaymentEvent>)
    requires Faithful(s, a, log)
    ensures Faithful(s, IngestAll(s, a, es), log + Taken(s, a, es))
  {
    if es == [] {
      assert log + [] == log;
    } else {
      IngestAllFaithful(s, a, log, Front(es));
      var b, taken := IngestAll(s, a, Front(es)), log + Taken(s, a, Front(es));
      if !TooLate(s, b.latest, Last(es).at) {
        IngestFaithful(s, b, taken, Last(es));
        assert log + Taken(s, a, es) == taken + [Last(es)];
      } else {
        assert Ingest(s, b, Last(es)).0.buckets == b.buckets;
        assert forall k :: BucketExact(s.Bucket(), b, taken, k) ==>
          BucketExact(s.Bucket(), Ingest(s, b, Last(es)).0, taken, k);
        assert forall e :: HasBucket(s, b, e) ==> HasBucket(s, Ingest(s, b, Last(es)).0, e);
      }
    }
  }

  /** The latest event time never goes back, so what is too late stays too late. */
  lemma {:induction false} LatestGrows(s: Settings, a: Aggregate, es: seq<PaymentEvent>)
    ensures a.latest.Some? ==> IngestAll(s, a, es).latest.Some? && IngestAll(s, a, es).latest.value >= a.latest.value
  {
    if es != [] {
      LatestGrows(s, a, Front(es));
    }
  }

  /** An ingested event is taken, or too late for ever. */
  lemma {:induction false} TakenOrTooLate(s: Settings, a: Aggregate, es: seq<PaymentEvent>, e: PaymentEvent)
    requires e in es
    ensures e in Taken(s, a, es) || TooLate(s, IngestAll(s, a, es).latest, e.at)
  {
    assert es == Front(es) + [Last(es)];
    if e in Front(es) {
      TakenOrTooLate(s, a, Front(es), e);
    }
  }

  /** Only an ingested event is taken, and only one that was not too late before. */
  lemma {:induction false} TakenFrom(s: Settings, a: Aggregate, es: seq<PaymentEvent>, e: PaymentEvent)
    requires e in Taken(s, a, es)
    ensures e in es && !TooLate(s, a.latest, e.at)
  {
    assert es == Front(es) + [Last(es)];
    if e in Taken(s, a, Front(es)) {
      TakenFrom(s, a, Front(es), e);
    } else {
      LatestGrows(s, a, Front(es));
    }
  }

  lemma {:induction false} TakenDistinct(s: Settings, a: Aggregate, es: seq<PaymentEvent>)
    requires Distinct(es)
    ensures Distinct(Taken(s, a, es))
  {
    if es != [] {
      TakenDistinct(s, a, Front(es));
      var rest := Taken(s, a, Front(es));
      forall i | 0 <= i < |rest| ensures rest[i].id != Last(es).id {
        TakenFrom(s, a, Front(es), rest[i]);
        var j :| 0 <= j < |Front(es)| && Front(es)[j] == rest[i];
        assert es[j].id != es[|es|-1].id;
      }
    }
  }
}
