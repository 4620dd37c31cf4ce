/** Event-time aggregation as functions on values: the specification that the class in
    module EventTime is verified against, and what every run of it guarantees. */
module Aggregation {
  import opened Lists
  import opened Options
  import opened Config
  import opened Folds
  import opened Rollups

  datatype Disposition = Accepted | AcceptedLate | DroppedTooLate

  datatype Telemetry = Unknown | Stale | WarmingUp | Healthy

  datatype Aggregate = Aggregate(
    buckets: map<int, Rollup>,
    latest: Option<int>,
    lateCount: nat,
    version: nat)

  datatype Snapshot = Snapshot(
    version: nat,
    generatedAt: int,
    evidenceEnd: int,
    telemetry: Telemetry,
    baselineReady: bool,
    current: Rollup,
    baseline: Rollup,
    lateCount: nat)

  const EMPTY := Aggregate(map[], None, 0, 0)

  // ---- buckets --------------------------------------------------------------

  function BucketStart(d: int, t: int): int
    requires d > 0
  {
    t / d * d
  }

  lemma BucketHolds(d: int, t: int)
    requires d > 0
    ensures BucketStart(d, t) <= t < BucketStart(d, t) + d
  {
  }

  /** A whole bucket is inside [lo, hi). */
  predicate Inside(d: int, start: int, lo: int, hi: int) {
    lo <= start && start + d <= hi
  }

  predicate Aligned(d: int, t: int)
    requires d > 0
  {
    t % d == 0
  }

  lemma ScaleGrows(d: int, i: int, j: int)
    requires d > 0 && i < j
    ensures i * d + d <= j * d
    decreases j - i
  {
    if i + 1 < j {
      ScaleGrows(d, i, j - 1);
    }
    assert j * d == (j - 1) * d + d;
  }

  lemma ScaleOrder(d: int, i: int, j: int)
    requires d > 0
    ensures i <= j <==> i * d <= j * d
  {
    if i < j {
      ScaleGrows(d, i, j);
    } else if j < i {
      ScaleGrows(d, j, i);
    }
  }

  /** Between aligned bounds, an event's bucket is inside exactly when the event is. */
  lemma AlignedBounds(d: int, t: int, lo: int, hi: int)
    requires d > 0 && Aligned(d, lo) && Aligned(d, hi)
    ensures Inside(d, BucketStart(d, t), lo, hi) <==> lo <= t < hi
  {
    BucketHolds(d, t);
    var i, j, k := lo / d, hi / d, t / d;
    assert lo == i * d && hi == j * d;
    ScaleOrder(d, i, k);
    ScaleOrder(d, k + 1, i);
    ScaleOrder(d, k + 1, j);
    ScaleOrder(d, j, k);
    assert (k + 1) * d == k * d + d;
  }

  // ---- ingest ---------------------------------------------------------------

  predicate TooLate(s: Settings, latest: Option<int>, at: int) {
    latest.Some? && latest.value - at > s.Lateness()
  }

  function Later(latest: Option<int>, at: int): Option<int> {
    if latest.Some? && at <= latest.value then latest else Some(at)
  }

  function Ingest(s: Settings, a: Aggregate, e: PaymentEvent): (r: (Aggregate, Disposition))
  {
    if TooLate(s, a.latest, e.at) then
      (a.(lateCount := a.lateCount + 1), DroppedTooLate)
    else
      var start := BucketStart(s.Bucket(), e.at);
      (a.(latest := Later(a.latest, e.at),
          buckets := a.buckets[start := Merge(At(a.buckets, start, map[]), OneRollup(e))]),
       if a.latest.Some? && e.at < a.latest.value then AcceptedLate else Accepted)
  }

  // ---- windows --------------------------------------------------------------

  function InWindow(d: int, lo: int, hi: int): int -> bool {
    k => Inside(d, k, lo, hi)
  }

  function BucketsInside(d: int, buckets: map<int, Rollup>, lo: int, hi: int): map<int, Rollup> {
    Where(buckets, InWindow(d, lo, hi))
  }

  /** The bounds of the windows of a snapshot taken at asOf. */
  function End(s: Settings, asOf: int): int { BucketStart(s.Bucket(), asOf) }
  function Mid(s: Settings, asOf: int): int { End(s, asOf) - s.Current() }
  function Begin(s: Settings, asOf: int): int { Mid(s, asOf) - s.Baseline() }

  ghost function Window(d: int, buckets: map<int, Rollup>, lo: int, hi: int): Rollup {
    Fold(BucketsInside(d, buckets, lo, hi), Merge, map[])
  }

  function TelemetryState(s: Settings, latest: Option<int>, asOf: int, current: Rollup, ready: bool): Telemetry {
    if latest.None? || Get(current, Overall).attempts == 0 then Unknown
    else if asOf - latest.value > s.staleAfterSeconds * MICROS then Stale
    else if !ready || Get(current, Overall).attempts < s.minCurrentAttempts then WarmingUp
    else Healthy
  }

  predicate Ready(s: Settings, baseline: Rollup) {
    && Get(baseline, Overall).attempts >= s.baselineRequiredSamples
    && Get(baseline, Overall).attempts >= s.minBaselineAttempts
  }

  ghost function TakeSnapshot(s: Settings, a: Aggregate, asOf: int): (Aggregate, Snapshot)
  {
    var end := End(s, asOf);
    var current := Window(s.Bucket(), a.buckets, Mid(s, asOf), end);
    var baseline := Window(s.Bucket(), a.buckets, Begin(s, asOf), Mid(s, asOf));
    var ready := Ready(s, baseline);
    (a.(version := a.version + 1),
     Snapshot(a.version + 1, asOf, end, TelemetryState(s, a.latest, asOf, current, ready), ready,
              current, baseline, a.lateCount))
  }

  // ---- checkpoint -----------------------------------------------------------

  /** A bucket that ended before the retention bound is left out of a checkpoint. */
  predicate Retained(s: Settings, latest: Option<int>, start: int) {
    latest.None? || start + s.Bucket() >= latest.value - s.Retention()
  }

  function RetainedBy(s: Settings, latest: Option<int>): int -> bool {
    k => Retained(s, latest, k)
  }

  function Export(s: Settings, a: Aggregate): Aggregate {
    a.(buckets := Where(a.buckets, RetainedBy(s, a.latest)))
  }

  // ---- runs -----------------------------------------------------------------

  function Run(s: Settings, es: seq<PaymentEvent>): Aggregate {
    if es == [] then EMPTY else Ingest(s, Run(s, Front(es)), Last(es)).0
  }

  /** The events of es that were accepted. */
  function Log(s: Settings, es: seq<PaymentEvent>): seq<PaymentEvent>
  {
    if es == [] then []
    else if TooLate(s, Run(s, Front(es)).latest, Last(es).at) then Log(s, Front(es))
    else Log(s, Front(es)) + [Last(es)]
  }

  /** The events whose whole bucket is inside the window. */
  function Covered(d: int, es: seq<PaymentEvent>, lo: int, hi: int): seq<PaymentEvent>
    requires d > 0
  {
    if es == [] then []
    else
      var rest := Covered(d, Front(es), lo, hi);
      if Inside(d, BucketStart(d, Last(es).at), lo, hi) then rest + [Last(es)] else rest
  }

  /** The events with lo <= occurred_at < hi. */
  function Between(es: seq<PaymentEvent>, lo: int, hi: int): seq<PaymentEvent> {
    if es == [] then []
    else
      var rest := Between(Front(es), lo, hi);
      if lo <= Last(es).at < hi then rest + [Last(es)] else rest
  }

  /** What one ingest does to any window. */
  lemma WindowIngest(s: Settings, a: Aggregate, e: PaymentEvent, lo: int, hi: int)
    ensures var d := s.Bucket(); var was := Window(d, a.buckets, lo, hi);
      Window(d, Ingest(s, a, e).0.buckets, lo, hi) ==
        if !TooLate(s, a.latest, e.at) && Inside(d, BucketStart(d, e.at), lo, hi)
        then Merge(was, OneRollup(e)) else was
  {
    if !TooLate(s, a.latest, e.at) {
      MergeMonoid();
      FoldWhereAdd(a.buckets, InWindow(s.Bucket(), lo, hi), BucketStart(s.Bucket(), e.at), OneRollup(e), Merge, map[]);
    }
  }

  /** After any ingest sequence every window holds exactly the recount of the accepted
      events whose bucket is inside it. */
  lemma {:induction false} WindowIsRecount(s: Settings, es: seq<PaymentEvent>, lo: int, hi: int)
    ensures Window(s.Bucket(), Run(s, es).buckets, lo, hi) == Recount(Covered(s.Bucket(), Log(s, es), lo, hi))
  {
    var d := s.Bucket();
    if es == [] {
      assert BucketsInside(d, map[], lo, hi) == map[];
    } else {
      WindowIsRecount(s, Front(es), lo, hi);
      WindowIngest(s, Run(s, Front(es)), Last(es), lo, hi);
      var log, e := Log(s, Front(es)), Last(es);
      assert Front(log + [e]) == log && Last(log + [e]) == e;
      var c := Covered(d, log, lo, hi);
      assert (c + [e])[..|c|] == c;
    }
  }

  lemma WindowOfOne(d: int, bs: map<int, Rollup>, k: int)
    requires k in bs
    ensures Window(d, bs, k, k + d) == bs[k]
  {
    var inside := BucketsInside(d, bs, k, k + d);
    assert inside == map[k := bs[k]];
    MergeMonoid();
    FoldOut(inside, k, Merge, map[]);
    assert inside - {k} == map[];
    assert Commutes(Merge, map[], bs[k]) && Neutral(Merge, bs[k], map[]);
  }

  /** Every window of a holds exactly the recount of the logged events inside it. */
  ghost predicate Refines(s: Settings, a: Aggregate, log: seq<PaymentEvent>) {
    forall lo, hi :: WindowRefines(s.Bucket(), a, log, lo, hi)
  }

  ghost predicate WindowRefines(d: int, a: Aggregate, log: seq<PaymentEvent>, lo: int, hi: int)
    requires d > 0
  {
    Window(d, a.buckets, lo, hi) == Recount(Covered(d, log, lo, hi))
  }

  lemma RunRefines(s: Settings, es: seq<PaymentEvent>)
    ensures Refines(s, Run(s, es), Log(s, es))
  {
    forall lo, hi ensures WindowRefines(s.Bucket(), Run(s, es), Log(s, es), lo, hi) {
      WindowIsRecount(s, es, lo, hi);
    }
  }

  /** A bucket is the recount of the accepted events that fall in it. */
  lemma BucketIsRecount(s: Settings, a: Aggregate, log: seq<PaymentEvent>, k: int)
    requires Refines(s, a, log) && k in a.buckets
    ensures a.buckets[k] == Recount(Covered(s.Bucket(), log, k, k + s.Bucket()))
  {
    WindowOfOne(s.Bucket(), a.buckets, k);
    assert WindowRefines(s.Bucket(), a, log, k, k + s.Bucket());
  }

  lemma {:induction false} CoveredIsBetween(d: int, es: seq<PaymentEvent>, lo: int, hi: int)
    requires d > 0 && Aligned(d, lo) && Aligned(d, hi)
    ensures Covered(d, es, lo, hi) == Between(es, lo, hi)
  {
    if es != [] {
      CoveredIsBetween(d, Front(es), lo, hi);
      AlignedBounds(d, Last(es).at, lo, hi);
    }
  }

  lemma AlignedWindow(s: Settings, a: Aggregate, log: seq<PaymentEvent>, lo: int, hi: int)
    requires Refines(s, a, log) && Aligned(s.Bucket(), lo) && Aligned(s.Bucket(), hi)
    ensures Window(s.Bucket(), a.buckets, lo, hi) == Recount(Between(log, lo, hi))
  {
    assert WindowRefines(s.Bucket(), a, log, lo, hi);
    CoveredIsBetween(s.Bucket(), log, lo, hi);
  }

  /** The bucket length divides both window lengths. */
  predicate Divides(s: Settings) {
    Aligned(s.Bucket(), s.Current()) && Aligned(s.Bucket(), s.Baseline())
  }

  lemma AlignedMinus(d: int, a: int, b: int)
    requires d > 0 && Aligned(d, a)
    ensures Aligned(d, a - b) <==> Aligned(d, b)
  {
    var i := a / d;
    assert a == i * d;
    if Aligned(d, b) {
      assert b == b / d * d;
      assert a - b == (i - b / d) * d;
      Multiple(d, i - b / d);
    }
    if Aligned(d, a - b) {
      assert a - b == (a - b) / d * d;
      assert b == (i - (a - b) / d) * d;
      Multiple(d, i - (a - b) / d);
    }
  }

  lemma Multiple(d: int, k: int)
    requires d > 0
    ensures Aligned(d, k * d)
  {
    var q, r := k * d / d, k * d % d;
    assert (k - q) * d == r;
    ScaleOrder(d, k - q, 0);
    ScaleOrder(d, 1, k - q);
  }

  lemma BoundsAligned(s: Settings, asOf: int)
    ensures Aligned(s.Bucket(), End(s, asOf))
    ensures End(s, asOf) <= asOf < End(s, asOf) + s.Bucket()
    ensures Divides(s) ==> Aligned(s.Bucket(), Mid(s, asOf)) && Aligned(s.Bucket(), Begin(s, asOf))
  {
    BucketHolds(s.Bucket(), asOf);
    Multiple(s.Bucket(), asOf / s.Bucket());
    AlignedMinus(s.Bucket(), End(s, asOf), s.Current());
    if Divides(s) {
      AlignedMinus(s.Bucket(), Mid(s, asOf), s.Baseline());
    }
  }

  /** The windows of a snapshot, when the bucket length divides both window lengths:
      the recount over each half-open interval, and the two intervals together take
      every accepted event of the whole span exactly once. */
  lemma SnapshotIsRecount(s: Settings, a: Aggregate, log: seq<PaymentEvent>, asOf: int)
    requires Refines(s, a, log) && Divides(s)
    ensures TakeSnapshot(s, a, asOf).1.current == Recount(Between(log, Mid(s, asOf), End(s, asOf)))
    ensures TakeSnapshot(s, a, asOf).1.baseline == Recount(Between(log, Begin(s, asOf), Mid(s, asOf)))
    ensures multiset(Between(log, Begin(s, asOf), End(s, asOf))) ==
      multiset(Between(log, Begin(s, asOf), Mid(s, asOf))) + multiset(Between(log, Mid(s, asOf), End(s, asOf)))
  {
    BoundsAligned(s, asOf);
    AlignedWindow(s, a, log, Mid(s, asOf), End(s, asOf));
    AlignedWindow(s, a, log, Begin(s, asOf), Mid(s, asOf));
    BetweenSplits(log, Begin(s, asOf), Mid(s, asOf), End(s, asOf));
  }

  /** So it is after any run, with the events the run accepted. */
  lemma RunSnapshotIsRecount(s: Settings, es: seq<PaymentEvent>, asOf: int)
    requires Divides(s)
    ensures var (log, shot) := (Log(s, es), TakeSnapshot(s, Run(s, es), asOf).1);
      && shot.current == Recount(Between(log, Mid(s, asOf), End(s, asOf)))
      && shot.baseline == Recount(Between(log, Begin(s, asOf), Mid(s, asOf)))
  {
    RunRefines(s, es);
    SnapshotIsRecount(s, Run(s, es), Log(s, es), asOf);
  }

  lemma {:induction false} BetweenSplits(es: seq<PaymentEvent>, lo: int, mid: int, hi: int)
    requires lo <= mid <= hi
    ensures multiset(Between(es, lo, hi)) == multiset(Between(es, lo, mid)) + multiset(Between(es, mid, hi))
  {
    if es != [] {
      BetweenSplits(Front(es), lo, mid, hi);
    }
  }

  /** Whatever the lengths, no bucket is ever read by both windows. */
  lemma WindowsNeverOverlap(d: int, buckets: map<int, Rollup>, begin: int, mid: int, end: int)
    requires d > 0
    ensures BucketsInside(d, buckets, begin, mid).Keys !! BucketsInside(d, buckets, mid, end).Keys
  {
    assert forall k :: !(k in BucketsInside(d, buckets, begin, mid) && k in BucketsInside(d, buckets, mid, end));
  }

  /** Divisibility is exactly what makes both windows exact. */
  lemma ExactIffDivides(s: Settings, asOf: int)
    ensures Divides(s) <==>
      forall t :: WindowsExactAt(s, asOf, t)
  {
    var d, end, mid, begin := s.Bucket(), End(s, asOf), Mid(s, asOf), Begin(s, asOf);
    BoundsAligned(s, asOf);
    if Divides(s) {
      forall t ensures WindowsExactAt(s, asOf, t) {
        AlignedBounds(d, t, mid, end);
        AlignedBounds(d, t, begin, mid);
      }
    } else if !Aligned(d, s.Current()) {
      AlignedMinus(d, end, s.Current());
      StartBefore(d, mid);
      assert !WindowsExactAt(s, asOf, mid);
    } else {
      AlignedMinus(d, end, s.Current());
      AlignedMinus(d, mid, s.Baseline());
      StartBefore(d, begin);
      assert !WindowsExactAt(s, asOf, begin);
    }
  }

  /** An event at t is read by a window exactly when the window's interval holds t. */
  ghost predicate WindowsExactAt(s: Settings, asOf: int, t: int) {
    var start := BucketStart(s.Bucket(), t);
    && (Inside(s.Bucket(), start, Mid(s, asOf), End(s, asOf)) <==> Mid(s, asOf) <= t < End(s, asOf))
    && (Inside(s.Bucket(), start, Begin(s, asOf), Mid(s, asOf)) <==> Begin(s, asOf) <= t < Mid(s, asOf))
  }

  lemma StartBefore(d: int, t: int)
    requires d > 0 && !Aligned(d, t)
    ensures BucketStart(d, t) < t
  {
  }

  // ---- bounded disorder -----------------------------------------------------

  /** No event is more than the allowed lateness behind an earlier one. */
  predicate BoundedDisorder(s: Settings, es: seq<PaymentEvent>) {
    forall i, j :: 0 <= i < j < |es| ==> es[i].at - es[j].at <= s.Lateness()
  }

  ghost predicate IsLatest(es: seq<PaymentEvent>, m: Option<int>) {
    && (m.None? <==> es == [])
    && (m.Some? ==> (forall e :: e in es ==> e.at <= m.value) && (exists e :: e in es && e.at == m.value))
  }

  lemma {:induction false} LatestIsMaximum(s: Settings, es: seq<PaymentEvent>)
    ensures IsLatest(es, Run(s, es).latest)
  {
    if es != [] {
      LatestIsMaximum(s, Front(es));
      assert es == Front(es) + [Last(es)];
    }
  }

  lemma DisorderSnoc(s: Settings, prev: seq<PaymentEvent>, e: PaymentEvent, m: Option<int>)
    requires IsLatest(prev, m)
    ensures BoundedDisorder(s, prev + [e]) <==> BoundedDisorder(s, prev) && !TooLate(s, m, e.at)
  {
    var es := prev + [e];
    if BoundedDisorder(s, es) {
      forall i, j | 0 <= i < j < |prev| ensures prev[i].at - prev[j].at <= s.Lateness() {
        assert es[i].at - es[j].at <= s.Lateness();
      }
      if m.Some? {
        var x :| x in prev && x.at == m.value;
        var i :| 0 <= i < |prev| && prev[i] == x;
        assert es[i].at - es[|prev|].at <= s.Lateness();
      }
    }
  }

  /** Nothing is dropped exactly when the disorder is bounded, and the late counter
      counts exactly the dropped events. */
  lemma {:induction false} DropsIffDisorder(s: Settings, es: seq<PaymentEvent>)
    ensures Log(s, es) == es <==> BoundedDisorder(s, es)
    ensures |Log(s, es)| + Run(s, es).lateCount == |es|
  {
    if es != [] {
      DropsIffDisorder(s, Front(es));
      LatestIsMaximum(s, Front(es));
      DisorderSnoc(s, Front(es), Last(es), Run(s, Front(es)).latest);
      assert es == Front(es) + [Last(es)];
    }
  }

  /** Two arrival orders of the same events, both with bounded disorder, give the same
      windows; one of them may be the time-sorted stream. */
  lemma DisorderLosesNothing(s: Settings, es: seq<PaymentEvent>, fs: seq<PaymentEvent>, lo: int, hi: int)
    requires multiset(es) == multiset(fs)
    requires BoundedDisorder(s, es) && BoundedDisorder(s, fs)
    ensures Window(s.Bucket(), Run(s, es).buckets, lo, hi) == Window(s.Bucket(), Run(s, fs).buckets, lo, hi)
    ensures Run(s, es).latest == Run(s, fs).latest
    ensures Run(s, es).lateCount == Run(s, fs).lateCount == 0
  {
    DropsIffDisorder(s, es);
    DropsIffDisorder(s, fs);
    LatestIsMaximum(s, es);
    LatestIsMaximum(s, fs);
    SameLatest(es, fs, Run(s, es).latest, Run(s, fs).latest);
    WindowIsRecount(s, es, lo, hi);
    WindowIsRecount(s, fs, lo, hi);
    CoveredOrderFree(s.Bucket(), es, fs, lo, hi);
  }

  lemma SameLatest(es: seq<PaymentEvent>, fs: seq<PaymentEvent>, m: Option<int>, n: Option<int>)
    requires multiset(es) == multiset(fs) && IsLatest(es, m) && IsLatest(fs, n)
    ensures m == n
  {
    assert forall e :: e in es <==> e in multiset(es);
    assert forall e :: e in fs <==> e in multiset(fs);
    assert |multiset(es)| == |es| && |multiset(fs)| == |fs|;
  }

  predicate SortedByTime(es: seq<PaymentEvent>) {
    forall i, j :: 0 <= i < j < |es| ==> es[i].at <= es[j].at
  }

  lemma SortedIsBounded(s: Settings, es: seq<PaymentEvent>)
    requires SortedByTime(es)
    ensures BoundedDisorder(s, es)
  {
  }

  lemma {:induction false} CoveredMultiset(d: int, es: seq<PaymentEvent>, lo: int, hi: int)
    requires d > 0
    ensures forall e ::
      multiset(Covered(d, es, lo, hi))[e] == (if Inside(d, BucketStart(d, e.at), lo, hi) then multiset(es)[e] else 0)
  {
    if es != [] {
      CoveredMultiset(d, Front(es), lo, hi);
      assert es == Front(es) + [Last(es)];
    }
  }

  lemma CoveredOrderFree(d: int, es: seq<PaymentEvent>, fs: seq<PaymentEvent>, lo: int, hi: int)
    requires d > 0 && multiset(es) == multiset(fs)
    ensures Recount(Covered(d, es, lo, hi)) == Recount(Covered(d, fs, lo, hi))
  {
    CoveredMultiset(d, es, lo, hi);
    CoveredMultiset(d, fs, lo, hi);
    RecountOrderFree(Covered(d, es, lo, hi), Covered(d, fs, lo, hi));
  }
}
