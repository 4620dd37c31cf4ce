/** The runtime pipeline as functions on values: deduplicate, ingest, snapshot, evaluate,
    apply, persist; and the proof that a restart from the checkpoint changes nothing that
    a later batch can observe. */
module Pipeline {
  import opened Lists
  import opened Options
  import opened Config
  import opened Folds
  import opened Rollups
  import opened Aggregation
  import Detector
  import Lifecycle

  /** The one signal the live pipeline evaluates. */
  const FINGERPRINT := "technical_error_rate:GLOBAL"

  datatype State = State(aggregate: Aggregate, ids: map<string, int>, cell: Lifecycle.Cell)

  datatype Output = Output(shot: Snapshot, evaluation: Detector.Evaluation, transition: Lifecycle.Transition)

  const FRESH := State(EMPTY, map[], Lifecycle.FRESH)

  /** The payments whose id is not remembered. */
  function NewPayments(ids: map<string, int>, payments: seq<PaymentEvent>): seq<PaymentEvent> {
    if payments == [] then []
    else
      var rest := NewPayments(ids, Front(payments));
      if Last(payments).id in ids then rest else rest + [Last(payments)]
  }

  lemma {:induction false} NewPaymentsFrom(ids: map<string, int>, payments: seq<PaymentEvent>)
    ensures forall e :: e in NewPayments(ids, payments) <==> e in payments && e.id !in ids
  {
    if payments != [] {
      NewPaymentsFrom(ids, Front(payments));
      assert payments == Front(payments) + [Last(payments)];
    }
  }

  function Remember(ids: map<string, int>, es: seq<PaymentEvent>): map<string, int> {
    if es == [] then ids else Remember(ids, Front(es))[Last(es).id := Last(es).at]
  }

  function IngestAll(s: Settings, a: Aggregate, es: seq<PaymentEvent>): Aggregate {
    if es == [] then a else Ingest(s, IngestAll(s, a, Front(es)), Last(es)).0
  }

  function Kept(s: Settings, latest: Option<int>): int -> bool {
    at => latest.None? || at >= latest.value - s.Retention()
  }

  /** Forgets the ids of events older than the retention bound. */
  function Prune(s: Settings, latest: Option<int>, ids: map<string, int>): map<string, int> {
    map id | id in ids && Kept(s, latest)(ids[id]) :: ids[id]
  }

  /** The in-memory part of processing: ingest, snapshot, evaluate, apply. */
  ghost function Absorb(s: Settings, p: State, es: seq<PaymentEvent>, asOf: int): (State, Output) {
    var aggregate := IngestAll(s, p.aggregate, es);
    var (after, shot) := TakeSnapshot(s, aggregate, asOf);
    var evaluation := Detector.Evaluate(s, shot);
    var (cell, transition) := Lifecycle.Apply(s, FINGERPRINT, p.cell, evaluation);
    (State(after, Remember(p.ids, es), cell), Output(shot, evaluation, transition))
  }

  /** Persisting prunes the remembered ids in memory as well. */
  function Settle(s: Settings, p: State): State {
    p.(ids := Prune(s, p.aggregate.latest, p.ids))
  }

  ghost function ProcessPayments(s: Settings, p: State, es: seq<PaymentEvent>, asOf: int): (State, Output) {
    var (q, out) := Absorb(s, p, es, asOf);
    (Settle(s, q), out)
  }

  /** A batch without a new payment does nothing. */
  ghost function ProcessBatch(s: Settings, p: State, payments: seq<PaymentEvent>, asOf: int): (State, Option<Output>) {
    var es := NewPayments(p.ids, payments);
    if es == [] then (p, None)
    else
      var (p', out) := ProcessPayments(s, p, es, asOf);
      (p', Some(out))
  }

  /** What is written durably, and read back after a restart. */
  function Checkpoint(s: Settings, p: State): State {
    p.(aggregate := Export(s, p.aggregate))
  }

  // ---- restart transparency -------------------------------------------------

  /** part is full without some buckets that ended before the retention bound. */
  ghost predicate Trimmed(s: Settings, full: Aggregate, part: Aggregate) {
    && part.(buckets := full.buckets) == full
    && (forall k :: k in part.buckets ==> k in full.buckets && part.buckets[k] == full.buckets[k])
    && (forall k :: k in full.buckets && k !in part.buckets ==>
          full.latest.Some? && k + s.Bucket() < full.latest.value - s.Retention())
  }

  /** Exporting at any time leaves out only such buckets. */
  lemma ExportTrims(s: Settings, full: Aggregate, part: Aggregate)
    requires Trimmed(s, full, part)
    ensures Trimmed(s, full, Export(s, part))
  {
  }

  /** An accepted event never lands in a bucket the checkpoint left out. */
  lemma IngestTrimmed(s: Settings, full: Aggregate, part: Aggregate, e: PaymentEvent)
    requires Trimmed(s, full, part)
    ensures Ingest(s, full, e).1 == Ingest(s, part, e).1
    ensures Trimmed(s, Ingest(s, full, e).0, Ingest(s, part, e).0)
  {
    BucketHolds(s.Bucket(), e.at);
    var start := BucketStart(s.Bucket(), e.at);
    if !TooLate(s, full.latest, e.at) && start in full.buckets {
      assert start in part.buckets;
    }
  }

  lemma {:induction false} IngestAllTrimmed(s: Settings, full: Aggregate, part: Aggregate, es: seq<PaymentEvent>)
    requires Trimmed(s, full, part)
    ensures Trimmed(s, IngestAll(s, full, es), IngestAll(s, part, es))
  {
    if es != [] {
      IngestAllTrimmed(s, full, part, Front(es));
      IngestTrimmed(s, IngestAll(s, full, Front(es)), IngestAll(s, part, Front(es)), Last(es));
    }
  }

  /** The snapshot is taken no earlier than the lateness bound allows events to be. */
  predicate Timely(s: Settings, latest: Option<int>, asOf: int) {
    latest.Some? ==> asOf >= latest.value - s.Lateness()
  }

  /** A timely snapshot never reads a bucket the checkpoint left out. */
  lemma SnapshotTrimmed(s: Settings, full: Aggregate, part: Aggregate, asOf: int)
    requires Trimmed(s, full, part) && Timely(s, full.latest, asOf)
    ensures TakeSnapshot(s, full, asOf).1 == TakeSnapshot(s, part, asOf).1
    ensures Trimmed(s, TakeSnapshot(s, full, asOf).0, TakeSnapshot(s, part, asOf).0)
  {
    BucketHolds(s.Bucket(), asOf);
    SameInside(s, full, part, Mid(s, asOf), End(s, asOf));
    SameInside(s, full, part, Begin(s, asOf), Mid(s, asOf));
  }

  lemma SameInside(s: Settings, full: Aggregate, part: Aggregate, lo: int, hi: int)
    requires Trimmed(s, full, part)
    requires full.latest.Some? ==> lo + s.Bucket() >= full.latest.value - s.Retention()
    ensures BucketsInside(s.Bucket(), full.buckets, lo, hi) == BucketsInside(s.Bucket(), part.buckets, lo, hi)
  {
  }

  datatype Batch = Batch(payments: seq<PaymentEvent>, asOf: int, restartAfter: bool)

  /** The run that ignores every restart, and the one that restarts from its checkpoint
      wherever the script says so. */
  ghost function Uninterrupted(s: Settings, p: State, script: seq<Batch>): (State, seq<Option<Output>>) {
    if script == [] then (p, [])
    else
      var (q, outs) := Uninterrupted(s, p, Front(script));
      var (q', out) := ProcessBatch(s, q, Last(script).payments, Last(script).asOf);
      (q', outs + [out])
  }

  ghost function Restarted(s: Settings, p: State, script: seq<Batch>): (State, seq<Option<Output>>) {
    if script == [] then (p, [])
    else
      var (q, outs) := Restarted(s, p, Front(script));
      var (q', out) := ProcessBatch(s, q, Last(script).payments, Last(script).asOf);
      (if Last(script).restartAfter then Checkpoint(s, q') else q', outs + [out])
  }

  ghost predicate BatchTimely(s: Settings, p: State, payments: seq<PaymentEvent>, asOf: int) {
    var es := NewPayments(p.ids, payments);
    es != [] ==> Timely(s, IngestAll(s, p.aggregate, es).latest, asOf)
  }

  /** Every batch of the uninterrupted run that takes a snapshot takes a timely one. */
  ghost predicate AllTimely(s: Settings, p: State, script: seq<Batch>) {
    script == [] ||
    (&& AllTimely(s, p, Front(script))
     && var q := Uninterrupted(s, p, Front(script)).0;
        BatchTimely(s, q, Last(script).payments, Last(script).asOf))
  }

  ghost predicate Alike(s: Settings, full: State, part: State) {
    Trimmed(s, full.aggregate, part.aggregate) && part.ids == full.ids && part.cell == full.cell
  }

  lemma BatchAlike(s: Settings, full: State, part: State, payments: seq<PaymentEvent>, asOf: int)
    requires Alike(s, full, part)
    requires BatchTimely(s, full, payments, asOf)
    ensures ProcessBatch(s, full, payments, asOf).1 == ProcessBatch(s, part, payments, asOf).1
    ensures Alike(s, ProcessBatch(s, full, payments, asOf).0, ProcessBatch(s, part, payments, asOf).0)
  {
    var es := NewPayments(full.ids, payments);
    if es != [] {
      IngestAllTrimmed(s, full.aggregate, part.aggregate, es);
      SnapshotTrimmed(s, IngestAll(s, full.aggregate, es), IngestAll(s, part.aggregate, es), asOf);
    }
  }

  /** Restarting after any of the batches changes no snapshot, no evaluation, no
      transition, no remembered id and no lifecycle state, now or later. */
  lemma {:induction false} RestartsAreTransparent(s: Settings, p: State, script: seq<Batch>)
    requires AllTimely(s, p, script)
    ensures Uninterrupted(s, p, script).1 == Restarted(s, p, script).1
    ensures Alike(s, Uninterrupted(s, p, script).0, Restarted(s, p, script).0)
  {
    if script != [] {
      RestartsAreTransparent(s, p, Front(script));
      var full, part := Uninterrupted(s, p, Front(script)).0, Restarted(s, p, Front(script)).0;
      BatchAlike(s, full, part, Last(script).payments, Last(script).asOf);
      var q := ProcessBatch(s, part, Last(script).payments, Last(script).asOf).0;
      ExportTrims(s, ProcessBatch(s, full, Last(script).payments, Last(script).asOf).0.aggregate, q.aggregate);
    }
  }

  // ---- when a restart is visible --------------------------------------------

  ghost predicate SameWindows(s: Settings, a: Aggregate, b: Aggregate, asOf: int) {
    && TakeSnapshot(s, a, asOf).1.current == TakeSnapshot(s, b, asOf).1.current
    && TakeSnapshot(s, a, asOf).1.baseline == TakeSnapshot(s, b, asOf).1.baseline
  }

  /** The first bucket that starts no earlier than t. */
  function StartFrom(d: int, t: int): int
    requires d > 0
  {
    if Aligned(d, t) then t else BucketStart(d, t) + d
  }

  lemma StartFromIsLeast(d: int, t: int, k: int)
    requires d > 0 && Aligned(d, k)
    ensures Aligned(d, StartFrom(d, t)) && t <= StartFrom(d, t) < t + d
    ensures t <= k <==> StartFrom(d, t) <= k
  {
    BucketHolds(d, t);
    Multiple(d, t / d + 1);
    var i, j := k / d, t / d;
    assert k == i * d && (j + 1) * d == j * d + d;
    if !Aligned(d, t) {
      ScaleOrder(d, i, j);
      ScaleOrder(d, j + 1, i);
    }
  }

  /** The first bucket that a snapshot at asOf reads in either window, if it reads any. */
  function FirstRead(s: Settings, asOf: int): Option<int> {
    var d := s.Bucket();
    var inBaseline, inCurrent := StartFrom(d, Begin(s, asOf)), StartFrom(d, Mid(s, asOf));
    if inBaseline + d <= Mid(s, asOf) then Some(inBaseline)
    else if inCurrent + d <= End(s, asOf) then Some(inCurrent)
    else None
  }

  /** A snapshot at asOf, after a restart with latest event m, is right whatever was
      ingested, exactly when the first bucket it reads does not end before the bound. */
  lemma RestartInvisibleIff(s: Settings, m: int, asOf: int)
    ensures (forall es :: Run(s, es).latest == Some(m) ==> SameWindows(s, Run(s, es), Export(s, Run(s, es)), asOf))
      <==> (FirstRead(s, asOf).Some? ==> FirstRead(s, asOf).value + s.Bucket() >= m - s.Retention())
  {
    if FirstRead(s, asOf).Some? ==> FirstRead(s, asOf).value + s.Bucket() >= m - s.Retention() {
      forall es | Run(s, es).latest == Some(m) ensures SameWindows(s, Run(s, es), Export(s, Run(s, es)), asOf) {
        StartsAligned(s, es);
        NothingMissedFrom(s, Run(s, es), asOf);
      }
    } else {
      RestartVisible(s, m, asOf);
    }
  }

  predicate AllAligned(d: int, buckets: map<int, Rollup>)
    requires d > 0
  {
    forall k :: k in buckets ==> Aligned(d, k)
  }

  lemma {:induction false} StartsAligned(s: Settings, es: seq<PaymentEvent>)
    ensures AllAligned(s.Bucket(), Run(s, es).buckets)
  {
    if es != [] {
      StartsAligned(s, Front(es));
      Multiple(s.Bucket(), Last(es).at / s.Bucket());
    }
  }

  lemma NothingMissedFrom(s: Settings, a: Aggregate, asOf: int)
    requires AllAligned(s.Bucket(), a.buckets)
    requires FirstRead(s, asOf).Some? && a.latest.Some? ==>
      FirstRead(s, asOf).value + s.Bucket() >= a.latest.value - s.Retention()
    ensures SameWindows(s, a, Export(s, a), asOf)
  {
    var d, b := s.Bucket(), Export(s, a);
    forall k | k in a.buckets
        && (Inside(d, k, Begin(s, asOf), Mid(s, asOf)) || Inside(d, k, Mid(s, asOf), End(s, asOf)))
      ensures k in b.buckets
    {
      StartFromIsLeast(d, Begin(s, asOf), k);
      StartFromIsLeast(d, Mid(s, asOf), k);
    }
    assert BucketsInside(d, a.buckets, Mid(s, asOf), End(s, asOf))
      == BucketsInside(d, b.buckets, Mid(s, asOf), End(s, asOf));
    assert BucketsInside(d, a.buckets, Begin(s, asOf), Mid(s, asOf))
      == BucketsInside(d, b.buckets, Begin(s, asOf), Mid(s, asOf));
  }

  /** Otherwise two events are enough to see the restart. */
  lemma RestartVisible(s: Settings, m: int, asOf: int)
    requires FirstRead(s, asOf).Some? && FirstRead(s, asOf).value + s.Bucket() < m - s.Retention()
    ensures exists es :: Run(s, es).latest == Some(m) && !SameWindows(s, Run(s, es), Export(s, Run(s, es)), asOf)
  {
    var k := FirstRead(s, asOf).value;
    var e := PaymentEvent("first", k, Approved, "APPROVED", 0.0, "SG", "CARD", "v1.0.0");
    var f := e.(id := "second", at := m);
    FirstReadHolds(s, asOf);
    TwoEvents(s, e, f);
    OldBucketMissed(s, Run(s, [e, f]), asOf, k, Merge(map[], OneRollup(e)));
  }

  /** Where the bucket length divides both windows, that is the bucket the baseline begins
      with. */
  lemma FirstReadWhenDivisible(s: Settings, asOf: int)
    requires Divides(s)
    ensures FirstRead(s, asOf) == Some(Begin(s, asOf))
  {
    BoundsAligned(s, asOf);
    ScaleOrder(s.Bucket(), 1, s.Baseline() / s.Bucket());
    ScaleOrder(s.Bucket(), s.Baseline() / s.Bucket(), 0);
  }

  lemma FirstReadHolds(s: Settings, asOf: int)
    requires FirstRead(s, asOf).Some?
    ensures var k := FirstRead(s, asOf).value;
      && Aligned(s.Bucket(), k) && k >= Begin(s, asOf)
      && (Inside(s.Bucket(), k, Begin(s, asOf), Mid(s, asOf)) || Inside(s.Bucket(), k, Mid(s, asOf), End(s, asOf)))
  {
    Multiple(s.Bucket(), 0);
    StartFromIsLeast(s.Bucket(), Begin(s, asOf), 0);
    StartFromIsLeast(s.Bucket(), Mid(s, asOf), 0);
  }

  lemma TwoEvents(s: Settings, e: PaymentEvent, f: PaymentEvent)
    requires Aligned(s.Bucket(), e.at) && e.at + s.Bucket() < f.at
    ensures var a, j := Run(s, [e, f]), BucketStart(s.Bucket(), f.at);
      && a.latest == Some(f.at)
      && a.buckets == map[e.at := Merge(map[], OneRollup(e)), j := Merge(map[], OneRollup(f))]
      && j > f.at - s.Bucket()
    ensures Overall in Merge(map[], OneRollup(e))
  {
    assert Front([e, f]) == [e] && Front([e]) == [];
    BucketHolds(s.Bucket(), f.at);
    assert BucketStart(s.Bucket(), e.at) == e.at;
    var one := Ingest(s, EMPTY, e).0;
    assert Run(s, [e]) == one && one.buckets == map[e.at := Merge(map[], OneRollup(e))];
    assert SlotsOf(e)[0] == Overall;
  }

  /** The window with the bucket at k loses it, and held nothing else. */
  lemma OldBucketMissed(s: Settings, a: Aggregate, asOf: int, k: int, r: Rollup)
    requires Overall in r && k in a.buckets && a.buckets[k] == r
    requires a.latest.Some? && Begin(s, asOf) <= k && k + s.Bucket() < a.latest.value - s.Retention()
    requires Inside(s.Bucket(), k, Begin(s, asOf), Mid(s, asOf)) || Inside(s.Bucket(), k, Mid(s, asOf), End(s, asOf))
    requires forall i :: i in a.buckets ==> i == k || i > a.latest.value - s.Bucket()
    ensures !SameWindows(s, a, Export(s, a), asOf)
  {
    if Inside(s.Bucket(), k, Begin(s, asOf), Mid(s, asOf)) {
      WindowLoses(s, a, k, r, Begin(s, asOf), Mid(s, asOf));
    } else {
      WindowLoses(s, a, k, r, Mid(s, asOf), End(s, asOf));
    }
  }

  lemma WindowLoses(s: Settings, a: Aggregate, k: int, r: Rollup, lo: int, hi: int)
    requires Overall in r && k in a.buckets && a.buckets[k] == r
    requires Inside(s.Bucket(), k, lo, hi) && a.latest.Some? && k + s.Bucket() < a.latest.value - s.Retention()
    requires forall i :: i in a.buckets ==> i == k || i + s.Bucket() > hi
    ensures Window(s.Bucket(), a.buckets, lo, hi) != Window(s.Bucket(), Export(s, a).buckets, lo, hi)
  {
    var d := s.Bucket();
    assert BucketsInside(d, a.buckets, lo, hi) == map[k := r];
    assert BucketsInside(d, Export(s, a).buckets, lo, hi) == map[];
    MergeMonoid();
    FoldOut(map[k := r], k, Merge, map[]);
  }
}
