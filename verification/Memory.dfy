/** Which payment ids the pipeline remembers: those delivered, and none older than the
    retention. */
module Memory {
  import opened Lists
  import opened Options
  import opened Config
  import opened Rollups
  import opened Aggregation
  import opened Pipeline

  /** The time of the id is at: as remembered, or else that of its last payment in the batch. */
  predicate KnownAt(ids: map<string, int>, payments: seq<PaymentEvent>, id: string, at: int) {
    if id in ids then ids[id] == at
    else exists i :: 0 <= i < |payments| && Found(payments, id, at, i)
  }

  predicate LastOf(payments: seq<PaymentEvent>, i: nat)
    requires i < |payments|
  {
    forall j :: i < j < |payments| ==> payments[j].id != payments[i].id
  }

  predicate Found(payments: seq<PaymentEvent>, id: string, at: int, i: int) {
    0 <= i < |payments| && payments[i].id == id && payments[i].at == at && LastOf(payments, i)
  }

  lemma KnownStep(ids: map<string, int>, payments: seq<PaymentEvent>, id: string, at: int)
    requires payments != [] && id !in ids
    ensures KnownAt(ids, payments, id, at) <==>
      if Last(payments).id == id then Last(payments).at == at else KnownAt(ids, Front(payments), id, at)
  {
    var front := Front(payments);
    if KnownAt(ids, payments, id, at) {
      var i :| 0 <= i < |payments| && Found(payments, id, at, i);
      if i < |front| {
        assert payments[i].id != payments[|payments|-1].id;
        assert Found(front, id, at, i);
      }
    }
    if Last(payments).id == id && Last(payments).at == at {
      assert Found(payments, id, at, |payments| - 1);
    }
    if Last(payments).id != id && KnownAt(ids, front, id, at) {
      var i :| 0 <= i < |front| && Found(front, id, at, i);
      assert Found(payments, id, at, i);
    }
  }

  /** Remembering the new payments of a batch. */
  lemma {:induction false} RemembersIff(ids: map<string, int>, payments: seq<PaymentEvent>, id: string, at: int)
    ensures var after := Remember(ids, NewPayments(ids, payments));
      (id in after && after[id] == at) <==> KnownAt(ids, payments, id, at)
  {
    if payments != [] {
      RemembersIff(ids, Front(payments), id, at);
      if id !in ids {
        KnownStep(ids, payments, id, at);
      }
      var rest := NewPayments(ids, Front(payments));
      if Last(payments).id !in ids {
        assert Front(rest + [Last(payments)]) == rest;
      }
    }
  }

  function RetentionOf(s: Settings): int {
    (s.baselineSeconds + s.currentSeconds + s.latenessSeconds + s.bucketSeconds) * 1_000_000
  }

  lemma PrunedIff(s: Settings, latest: int, ids: map<string, int>, id: string, at: int)
    ensures var kept := Prune(s, Some(latest), ids);
      (id in kept && kept[id] == at) <==> id in ids && ids[id] == at && at >= latest - RetentionOf(s)
  {
  }

  lemma BatchIds(s: Settings, p: State, payments: seq<PaymentEvent>, asOf: int)
    requires NewPayments(p.ids, payments) != []
    ensures var (q, es) := (ProcessBatch(s, p, payments, asOf).0, NewPayments(p.ids, payments));
      && q.aggregate.latest == IngestAll(s, p.aggregate, es).latest
      && q.ids == Prune(s, q.aggregate.latest, Remember(p.ids, es))
  {
  }

  /** After a batch that had a new payment, exactly the ids known by then are remembered
      whose time is within the retention of the latest event. */
  lemma BatchRemembersIff(s: Settings, p: State, payments: seq<PaymentEvent>, asOf: int, id: string, at: int)
    requires NewPayments(p.ids, payments) != []
    ensures var q := ProcessBatch(s, p, payments, asOf).0;
      && q.aggregate.latest.Some?
      && ((id in q.ids && q.ids[id] == at) <==>
            KnownAt(p.ids, payments, id, at) && at >= q.aggregate.latest.value - RetentionOf(s))
  {
    var es := NewPayments(p.ids, payments);
    BatchIds(s, p, payments, asOf);
    LatestKnown(s, p.aggregate, es);
    RemembersIff(p.ids, payments, id, at);
    PrunedIff(s, IngestAll(s, p.aggregate, es).latest.value, Remember(p.ids, es), id, at);
  }

  lemma LatestKnown(s: Settings, a: Aggregate, es: seq<PaymentEvent>)
    requires es != []
    ensures IngestAll(s, a, es).latest.Some?
  {
    assert !TooLate(s, None, Last(es).at);
  }

  /** No id is older than the retention. */
  ghost predicate Bounded(s: Settings, p: State) {
    forall id :: id in p.ids ==> p.aggregate.latest.Some? && p.ids[id] >= p.aggregate.latest.value - RetentionOf(s)
  }

  lemma BatchBounded(s: Settings, p: State, payments: seq<PaymentEvent>, asOf: int)
    requires Bounded(s, p)
    ensures Bounded(s, ProcessBatch(s, p, payments, asOf).0)
  {
    var q := ProcessBatch(s, p, payments, asOf).0;
    if NewPayments(p.ids, payments) != [] {
      forall id | id in q.ids
        ensures q.aggregate.latest.Some? && q.ids[id] >= q.aggregate.latest.value - RetentionOf(s)
      {
        BatchRemembersIff(s, p, payments, asOf, id, q.ids[id]);
      }
    }
  }

  /** So it is after any batches, restarted or not. */
  lemma {:induction false} AlwaysBounded(s: Settings, script: seq<Batch>)
    ensures Bounded(s, Uninterrupted(s, Pipeline.FRESH, script).0)
    ensures Bounded(s, Restarted(s, Pipeline.FRESH, script).0)
  {
    if script != [] {
      AlwaysBounded(s, Front(script));
      BatchBounded(s, Uninterrupted(s, Pipeline.FRESH, Front(script)).0, Last(script).payments, Last(script).asOf);
      BatchBounded(s, Restarted(s, Pipeline.FRESH, Front(script)).0, Last(script).payments, Last(script).asOf);
    }
  }
}
