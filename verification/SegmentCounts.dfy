/** What narrowing counts: the counters it rolls up are numbers of events. */
module SegmentCounts {
  import opened Options
  import opened Folds
  import opened Rollups
  import opened Segments
  import Conservation

  /** The segment of a combination's slot, and of an event. */
  function SlotSegment(s: Slot): Segment {
    PerDimension(Some(Conservation.Component(Region, s)), Some(Conservation.Component(Method, s)),
                 Some(Conservation.Component(Version, s)))
  }

  function EventSegment(e: PaymentEvent): Segment {
    PerDimension(Some(e.region), Some(e.paymentMethod), Some(e.version))
  }

  /** rows is the table of the combinations counted from es, in some order. */
  ghost predicate Tabulates(rows: seq<Row>, es: seq<PaymentEvent>) {
    AsMap(rows) == Conservation.Rolled(Conservation.Combinations(Recount(es)), SlotSegment)
  }

  predicate Falls(e: PaymentEvent, ds: Mask, c: Segment) { Project(EventSegment(e), ds) == c }

  lemma SlotOfEvent(e: PaymentEvent)
    ensures SlotSegment(Conservation.Triple(e)) == EventSegment(e)
  {
  }

  function Projected(ds: Mask): Slot -> Segment { s => Project(SlotSegment(s), ds) }

  lemma RolledOnce(es: seq<PaymentEvent>, rows: seq<Row>, ds: Mask)
    requires Tabulates(rows, es)
    ensures RolledTo(rows, ds) == Conservation.Rolled(Conservation.Combinations(Recount(es)), Projected(ds))
  {
    PlusMonoid();
    RollUpTwice(Conservation.Combinations(Recount(es)), SlotSegment, ProjectTo(ds), Projected(ds), Plus, ZERO);
  }

  /** Rolled up to any dimensions, the counter of a segment counts exactly the events that
      fall in it. */
  lemma RolledSegmentCounts(es: seq<PaymentEvent>, rows: seq<Row>, ds: Mask, c: Segment)
    requires Tabulates(rows, es)
    ensures At(RolledTo(rows, ds), c, ZERO).attempts == CountIf(es, e => Falls(e, ds, c))
    ensures At(RolledTo(rows, ds), c, ZERO).errors == CountIf(es, e => Falls(e, ds, c) && Conservation.Failed(e))
  {
    RolledOnce(es, rows, ds);
    Conservation.RolledCounts(es, Projected(ds), c);
    forall e ensures Projected(ds)(Conservation.Triple(e)) == c <==> Falls(e, ds, c) {
      SlotOfEvent(e);
    }
    SameCount(es, Conservation.InGroup(Projected(ds), c), e => Falls(e, ds, c));
    SameCount(es, Conservation.FailedInGroup(Projected(ds), c), e => Falls(e, ds, c) && Conservation.Failed(e));
  }
}
