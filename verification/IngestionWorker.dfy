/** The ingestion worker: one batch committed between two readings of the epoch. */
module IngestionWorker {
  import opened Lists
  import opened Options
  import opened Config
  import opened Rollups
  import opened Aggregation
  import opened Pipeline
  import opened RuntimePipeline

  // ---- the time a batch is projected at -----------------------------------------

  /** The latest event time of the batch. */
  function LatestAt(payments: seq<PaymentEvent>): (r: int)
    requires payments != []
    ensures (exists e :: e in payments && e.at == r) && forall e :: e in payments ==> e.at <= r
  {
    if |payments| == 1 then payments[0].at
    else
      assert payments == Front(payments) + [Last(payments)];
      var r := LatestAt(Front(payments));
      if Last(payments).at > r then Last(payments).at else r
  }

  /** While the simulation prewarms, a batch is projected at its own event time. */
  function ProjectionAsOf(payments: seq<PaymentEvent>, prewarming: bool, observedAt: int): int {
    if payments != [] && prewarming then LatestAt(payments) else observedAt
  }

  lemma LatestStep(s: Settings, a: Aggregate, e: PaymentEvent)
    ensures Ingest(s, a, e).0.latest == Later(a.latest, e.at)
  {
  }

  /** Ingesting moves the latest event time to that of the batch, or leaves it. */
  lemma {:induction false} LatestAfter(s: Settings, a: Aggregate, es: seq<PaymentEvent>)
    requires es != []
    ensures IngestAll(s, a, es).latest == Later(a.latest, LatestAt(es))
  {
    LatestStep(s, IngestAll(s, a, Front(es)), Last(es));
    if |es| > 1 {
      LatestAfter(s, a, Front(es));
    } else {
      assert Front(es) == [];
    }
  }

  /** A prewarming batch, remembered payments included, is projected in time for a restart
      to make no difference exactly when not all of it is too late. */
  lemma PrewarmingTimelyIff(s: Settings, a: Aggregate, ids: map<string, int>, payments: seq<PaymentEvent>,
                            observedAt: int)
    requires payments != []
    ensures Timely(s, IngestAll(s, a, NewPayments(ids, payments)).latest, ProjectionAsOf(payments, true, observedAt))
      <==> exists e :: e in payments && !TooLate(s, a.latest, e.at)
  {
    var es := NewPayments(ids, payments);
    NewPaymentsFrom(ids, payments);
    var top :| top in payments && top.at == LatestAt(payments);
    if es != [] {
      LatestAfter(s, a, es);
      var newest :| newest in es && newest.at == LatestAt(es);
    }
  }

  // ---- the object ---------------------------------------------------------------

  class IngestionWorker {
    const settings: Settings
    const store: Store
    var pipeline: Runtime
    var epoch: Option<string>

    ghost predicate Valid()
      reads this, store, pipeline, pipeline.aggregator, pipeline.lifecycle
    {
      pipeline.store == store && pipeline.settings == settings && pipeline.Valid() && pipeline.StoreFits()
    }

    /** Restores the pipeline and adopts the epoch in force. */
    constructor (store: Store, settings: Settings, epoch: Option<string>)
      requires store.payload.Some? ==> CellFits(store.payload.value.cell)
      ensures this.store == store && this.settings == settings && this.epoch == epoch
      ensures Valid() && fresh(pipeline) && fresh(pipeline.aggregator) && fresh(pipeline.lifecycle)
      ensures pipeline.Value() == if store.payload.Some? then store.payload.value else Pipeline.FRESH
    {
      this.store := store;
      this.settings := settings;
      this.epoch := epoch;
      var runtime := new Runtime(store, settings);
      runtime.Initialize();
      this.pipeline := runtime;
    }

    /** Wipes the store and starts an empty pipeline under the new epoch value. */
    method ResetForEpoch(value: Option<string>)
      requires Valid()
      modifies this, store
      ensures Valid() && fresh(pipeline) && fresh(pipeline.aggregator) && fresh(pipeline.lifecycle)
      ensures pipeline.Value() == Pipeline.FRESH && store.payload == None && epoch == value
    {
      store.payload := None;
      pipeline := new Runtime(store, settings);
      pipeline.Initialize();
      epoch := value;
    }

    /** Commits a batch, given the epoch as read before and after it. */
    method CommitBatch(before: Option<string>, payments: seq<PaymentEvent>, asOf: int, after: Option<string>)
      returns (out: Option<Output>)
      requires Valid()
      modifies this, store, pipeline, pipeline.aggregator, pipeline.lifecycle
      ensures Valid() && epoch == after
      ensures after != before ==> pipeline.Value() == Pipeline.FRESH && store.payload == None && out == None
      ensures after == before ==>
        var was := if before == old(epoch) then old(pipeline.Value()) else Pipeline.FRESH;
        var disk := if before == old(epoch) then old(store.payload) else None;
        && (pipeline.Value(), out) == Pipeline.ProcessBatch(settings, was, payments, asOf)
        && store.payload == if out.None? then disk else Some(Checkpoint(settings, pipeline.Value()))
    {
      if before != epoch {
        ResetForEpoch(before);
      }
      out := pipeline.ProcessBatch(payments, asOf);
      if after != before {
        ResetForEpoch(after);
        out := None;
      }
    }
  }
}
