/** The runtime pipeline object: deduplication memory, aggregator and lifecycle, with the
    durable state in a store. */
module RuntimePipeline {
  import opened Lists
  import opened Options
  import opened Config
  import opened Folds
  import opened Rollups
  import opened Pipeline
  import Detector
  import Lifecycle
  import EventTime
  import IncidentManager

  /** The durable resource "pipeline_state". */
  class Store {
    var payload: Option<State>

    constructor ()
      ensures payload == None
    {
      payload := None;
    }
  }

  class Runtime {
    const settings: Settings
    const store: Store
    const aggregator: EventTime.EventTimeAggregator
    const lifecycle: IncidentManager.IncidentLifecycleManager
    var ids: map<string, int>

    ghost predicate Valid()
      reads this, aggregator, lifecycle
    {
      && aggregator.settings == settings && lifecycle.settings == settings
      && lifecycle.Valid() && lifecycle.signals.Keys <= {FINGERPRINT}
    }

    ghost function Value(): State
      reads this, aggregator, lifecycle
    {
      State(aggregator.State(), ids, lifecycle.CellOf(FINGERPRINT))
    }

    constructor (store: Store, settings: Settings)
      ensures this.settings == settings && this.store == store
      ensures fresh(aggregator) && fresh(lifecycle)
      ensures Valid() && Value() == Pipeline.FRESH
    {
      this.settings := settings;
      this.store := store;
      ids := map[];
      aggregator := new EventTime.EventTimeAggregator(settings);
      lifecycle := new IncidentManager.IncidentLifecycleManager(settings);
    }

    /** What is in the store is what this class wrote there. */
    ghost predicate StoreFits()
      reads this, store
    {
      store.payload.Some? ==> CellFits(store.payload.value.cell)
    }

    /** Restores the checkpoint, if there is one. */
    method Initialize()
      requires Valid() && StoreFits()
      modifies this, aggregator, lifecycle
      ensures Valid()
      ensures Value() == if store.payload.Some? then store.payload.value else old(Value())
    {
      if store.payload.Some? {
        var payload := store.payload.value;
        aggregator.ImportState(payload.aggregate);
        lifecycle.ImportCell(FINGERPRINT, payload.cell);
        ids := payload.ids;
      }
    }

    /** Drops the payments already seen and processes the rest; a batch without a new
        payment changes nothing and writes nothing. */
    method ProcessBatch(payments: seq<PaymentEvent>, asOf: int) returns (out: Option<Output>)
      requires Valid() && StoreFits()
      modifies this, aggregator, lifecycle, store
      ensures Valid() && StoreFits()
      ensures (Value(), out) == Pipeline.ProcessBatch(settings, old(Value()), payments, asOf)
      ensures store.payload == if out.None? then old(store.payload) else Some(Checkpoint(settings, Value()))
    {
      var es: seq<PaymentEvent> := [];
      for i := 0 to |payments|
        invariant es == NewPayments(ids, payments[..i])
      {
        assert Front(payments[..i+1]) == payments[..i];
        if payments[i].id !in ids {
          es := es + [payments[i]];
        }
      }
      assert payments[..|payments|] == payments;
      if es == [] {
        return None;
      }
      var result := ProcessPayments(es, asOf);
      out := Some(result);
    }

    method ProcessPayments(es: seq<PaymentEvent>, asOf: int) returns (out: Output)
      requires Valid() && StoreFits()
      modifies this, aggregator, lifecycle, store
      ensures Valid() && StoreFits()
      ensures (Value(), out) == Pipeline.ProcessPayments(settings, old(Value()), es, asOf)
      ensures store.payload == Some(Checkpoint(settings, Value()))
    {
      for i := 0 to |es|
        invariant ids == Remember(old(ids), es[..i])
        invariant aggregator.State() == IngestAll(settings, old(aggregator.State()), es[..i])
        invariant lifecycle.Valid() && lifecycle.signals == old(lifecycle.signals)
        invariant lifecycle.CellOf(FINGERPRINT) == old(lifecycle.CellOf(FINGERPRINT))
      {
        assert Front(es[..i+1]) == es[..i];
        ids := ids[es[i].id := es[i].at];
        var _ := aggregator.Ingest(es[i]);
      }
      assert es[..|es|] == es;
      var shot := aggregator.Snapshot(asOf);
      var evaluation := Detector.Evaluate(settings, shot);
      var transition := lifecycle.Apply(FINGERPRINT, evaluation);
      out := Output(shot, evaluation, transition);
      PersistState();
    }

    /** Prunes the remembered ids and writes the checkpoint. */
    method PersistState()
      requires Valid()
      modifies this, store
      ensures Valid() && StoreFits()
      ensures Value() == Settle(settings, old(Value()))
      ensures store.payload == Some(Checkpoint(settings, Value()))
    {
      ids := KeepValues(ids, Kept(settings, aggregator.latest));
      var aggregate := aggregator.ExportState();
      var cell := lifecycle.ExportCell(FINGERPRINT);
      store.payload := Some(State(aggregate, ids, cell));
    }
  }

  ghost predicate CellFits(cell: Lifecycle.Cell) {
    && (cell.signal.incidentId.Some? ==> cell.signal.incidentId.value.fingerprint == FINGERPRINT)
    && (forall id :: id in cell.incidents ==> id.fingerprint == FINGERPRINT)
  }
}
