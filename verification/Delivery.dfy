/** The consumer of the payment stream as steps: claim, scan, process, persist, mark,
    ack, crash.  A crash loses the memory and restores the durable checkpoint; nothing
    else fails.  The two logs are history: they record which events were counted and no
    step reads them. */
module Delivery {
  import opened Lists
  import opened Options
  import opened Config
  import opened Rollups
  import opened Conservation
  import opened Aggregation
  import opened Pipeline
  import opened Ledger

  datatype Phase =
    | Idle
    | Scanning(todo: seq<nat>, pending: seq<nat>)
    | Persisting(pending: seq<nat>)
    | Marking(pending: seq<nat>)
    | Acking(pending: seq<nat>)

  datatype World = World(
    stream: seq<PaymentEvent>,
    dedupe: set<string>,
    acked: set<nat>,
    memory: State,
    disk: Option<State>,
    phase: Phase,
    memoryLog: seq<PaymentEvent>,
    diskLog: seq<PaymentEvent>)

  const START := World([], {}, {}, Pipeline.FRESH, None, Idle, [], [])

  datatype Action =
    | Publish(e: PaymentEvent)
    | Claim(messages: seq<nat>)
    | Scan
    | Process(asOf: int)
    | Persist
    | Mark
    | Ack
    | Crash

  function Events(stream: seq<PaymentEvent>, messages: seq<nat>): seq<PaymentEvent>
    requires Fits(stream, messages)
  {
    seq(|messages|, k requires 0 <= k < |messages| => stream[messages[k]])
  }

  predicate Fits(stream: seq<PaymentEvent>, messages: seq<nat>) {
    forall k :: 0 <= k < |messages| ==> messages[k] < |stream|
  }

  /** A publisher repeats an id only to repeat the event. */
  predicate SameIdSameEvent(stream: seq<PaymentEvent>) {
    forall i, j :: 0 <= i < |stream| && 0 <= j < |stream| && stream[i].id == stream[j].id ==> stream[i] == stream[j]
  }

  /** The step is possible: the phase is right, and a claim delivers unacknowledged
      messages whose event ids are pairwise different. */
  predicate Enabled(w: World, a: Action) {
    match a
    case Publish(e) => SameIdSameEvent(w.stream + [e])
    case Claim(messages) =>
      && w.phase.Idle?
      && Fits(w.stream, messages)
      && (forall k :: 0 <= k < |messages| ==> messages[k] !in w.acked)
      && Distinct(Events(w.stream, messages))
    case Scan => w.phase.Scanning? && w.phase.todo != [] && w.phase.todo[0] < |w.stream|
    case Process(_) => w.phase.Scanning? && w.phase.todo == [] && Fits(w.stream, w.phase.pending)
    case Persist => w.phase.Persisting?
    case Mark => w.phase.Marking? && (w.phase.pending != [] ==> w.phase.pending[0] < |w.stream|)
    case Ack => w.phase.Acking? && w.phase.pending != []
    case Crash => true
  }

  ghost function Step(s: Settings, w: World, a: Action): World
    requires Enabled(w, a)
  {
    match a
    case Publish(e) => w.(stream := w.stream + [e])
    case Claim(messages) => w.(phase := Scanning(messages, []))
    case Scan =>
      var i := w.phase.todo[0];
      if w.stream[i].id in w.dedupe
      then w.(acked := w.acked + {i}, phase := Scanning(w.phase.todo[1..], w.phase.pending))
      else w.(phase := Scanning(w.phase.todo[1..], w.phase.pending + [i]))
    case Process(asOf) =>
      var pending := w.phase.pending;
      var es := NewPayments(w.memory.ids, Events(w.stream, pending));
      if pending == [] then w.(phase := Idle)
      else if es == [] then w.(phase := Marking(pending))
      else w.(memory := Absorb(s, w.memory, es, asOf).0,
              memoryLog := w.memoryLog + Taken(s, w.memory.aggregate, es),
              phase := Persisting(pending))
    case Persist =>
      var settled := Settle(s, w.memory);
      w.(memory := settled, disk := Some(Checkpoint(s, settled)), diskLog := w.memoryLog,
         phase := Marking(w.phase.pending))
    case Mark =>
      if w.phase.pending == [] then w.(phase := Idle)
      else w.(dedupe := w.dedupe + {w.stream[w.phase.pending[0]].id}, phase := Acking(w.phase.pending))
    case Ack => w.(acked := w.acked + {w.phase.pending[0]}, phase := Marking(w.phase.pending[1..]))
    case Crash =>
      w.(memory := if w.disk.Some? then w.disk.value else Pipeline.FRESH, memoryLog := w.diskLog, phase := Idle)
  }

  /** The run is possible from the start, and where it leads. */
  ghost predicate Possible(s: Settings, run: seq<Action>)
    decreases |run|, 0
  {
    run == [] || (Possible(s, Front(run)) && Enabled(After(s, Front(run)), Last(run)))
  }

  ghost function After(s: Settings, run: seq<Action>): World
    requires Possible(s, run)
    decreases |run|, 1
  {
    if run == [] then START else Step(s, After(s, Front(run)), Last(run))
  }

  // ---- invariants -----------------------------------------------------------

  /** The event is counted, or it is too late ever to be. */
  predicate Accounted(s: Settings, latest: Option<int>, log: seq<PaymentEvent>, e: PaymentEvent) {
    e in log || TooLate(s, latest, e.at)
  }

  /** The state counts each event of its log once and remembers its id until no event
      that old can be accepted. */
  ghost predicate Sound(s: Settings, stream: seq<PaymentEvent>, p: State, log: seq<PaymentEvent>) {
    && Faithful(s, p.aggregate, log)
    && Distinct(log)
    && (forall e :: e in log ==> e in stream && RememberedOrOld(s, p, e))
    && (forall e :: e in stream && e.id in p.ids ==> Accounted(s, p.aggregate.latest, log, e) && p.ids[e.id] == e.at)
    && (forall id :: id in p.ids ==> Published(stream, id))
  }

  predicate Published(stream: seq<PaymentEvent>, id: string) {
    exists i :: 0 <= i < |stream| && stream[i].id == id
  }

  predicate RememberedOrOld(s: Settings, p: State, e: PaymentEvent) {
    || (e.id in p.ids && p.ids[e.id] == e.at)
    || (p.aggregate.latest.Some? && e.at < p.aggregate.latest.value - s.Retention())
  }

  /** Counted in the durable checkpoint, or dropped as too late. */
  predicate Durable(s: Settings, w: World, e: PaymentEvent) {
    w.disk.Some? && Accounted(s, w.disk.value.aggregate.latest, w.diskLog, e)
  }

  predicate DiskCurrent(w: World) {
    if w.disk.None? then w.memory == Pipeline.FRESH && w.memoryLog == []
    else
      && w.memory.ids == w.disk.value.ids
      && w.memory.aggregate.latest == w.disk.value.aggregate.latest
      && w.memoryLog == w.diskLog
  }

  ghost predicate MemoryAhead(s: Settings, w: World) {
    forall e :: Durable(s, w, e) ==> Accounted(s, w.memory.aggregate.latest, w.memoryLog, e)
  }

  function PendingOf(phase: Phase): seq<nat> {
    match phase
    case Idle => []
    case Scanning(todo, pending) => pending + todo
    case Persisting(pending) => pending
    case Marking(pending) => pending
    case Acking(pending) => pending
  }

  predicate PendingFits(w: World) {
    && Fits(w.stream, PendingOf(w.phase))
    && (w.phase.Scanning? ==> Distinct(Events(w.stream, PendingOf(w.phase))))
  }

  ghost predicate PendingSafe(s: Settings, w: World)
    requires PendingFits(w)
  {
    var pending := PendingOf(w.phase);
    && (w.phase.Persisting? ==> forall k :: 0 <= k < |pending| ==>
          Accounted(s, w.memory.aggregate.latest, w.memoryLog, w.stream[pending[k]]))
    && (w.phase.Marking? || w.phase.Acking? ==> forall k :: 0 <= k < |pending| ==> Durable(s, w, w.stream[pending[k]]))
    && (w.phase.Acking? ==> pending != [] && w.stream[pending[0]].id in w.dedupe)
  }

  /** The durable side: a sound checkpoint, and every marked event durable. */
  ghost predicate Records(s: Settings, w: World) {
    && SameIdSameEvent(w.stream)
    && (w.disk.Some? ==> Sound(s, w.stream, w.disk.value, w.diskLog))
    && (w.disk.None? ==> w.diskLog == [])
    && (forall e :: e in w.stream && e.id in w.dedupe ==> Durable(s, w, e))
    && (forall id :: id in w.dedupe ==> Published(w.stream, id))
    && (forall i :: i in w.acked ==> i < |w.stream| && w.stream[i].id in w.dedupe)
  }

  ghost predicate Invariant(s: Settings, w: World) {
    && Records(s, w)
    && Sound(s, w.stream, w.memory, w.memoryLog)
    && (if w.phase.Persisting? then MemoryAhead(s, w) else DiskCurrent(w))
    && PendingFits(w) && PendingSafe(s, w)
  }

  lemma RecordsKept(s: Settings, w: World, w': World)
    requires Records(s, w)
    requires w'.stream == w.stream && w'.disk == w.disk && w'.diskLog == w.diskLog && w'.dedupe == w.dedupe
    requires forall i :: i in w'.acked && i !in w.acked ==> i < |w.stream| && w.stream[i].id in w.dedupe
    ensures Records(s, w')
    ensures forall e :: Durable(s, w, e) <==> Durable(s, w', e)
  {
    assert forall e :: Durable(s, w, e) <==> Durable(s, w', e);
  }

  // ---- the invariant holds along every run ----------------------------------

  lemma {:induction false} NewPaymentsDistinct(ids: map<string, int>, payments: seq<PaymentEvent>)
    requires Distinct(payments)
    ensures Distinct(NewPayments(ids, payments))
  {
    if payments != [] {
      NewPaymentsDistinct(ids, Front(payments));
      NewPaymentsFrom(ids, Front(payments));
      var rest := NewPayments(ids, Front(payments));
      forall i | 0 <= i < |rest| ensures rest[i].id != Last(payments).id {
        assert rest[i] in Front(payments);
        var j :| 0 <= j < |Front(payments)| && Front(payments)[j] == rest[i];
        assert payments[j].id != payments[|payments|-1].id;
      }
    }
  }

  lemma OtherIds(es: seq<PaymentEvent>, e: PaymentEvent)
    requires es != [] && Distinct(es) && e in Front(es)
    ensures e.id != Last(es).id
  {
    var j :| 0 <= j < |Front(es)| && Front(es)[j] == e;
    assert es[j].id != es[|es|-1].id;
  }

  /** Remembering new ids forgets none, and adds exactly those of the events. */
  lemma {:induction false} RememberOld(ids: map<string, int>, es: seq<PaymentEvent>, id: string)
    requires forall e :: e in es ==> e.id != id
    ensures id in Remember(ids, es) <==> id in ids
    ensures id in ids ==> Remember(ids, es)[id] == ids[id]
  {
    if es != [] {
      assert Last(es) in es;
      RememberOld(ids, Front(es), id);
    }
  }

  lemma {:induction false} RememberNew(ids: map<string, int>, es: seq<PaymentEvent>, e: PaymentEvent)
    requires Distinct(es) && e in es
    ensures e.id in Remember(ids, es) && Remember(ids, es)[e.id] == e.at
  {
    if e in Front(es) {
      OtherIds(es, e);
      RememberNew(ids, Front(es), e);
    } else {
      assert es == Front(es) + [Last(es)];
    }
  }

  ghost predicate NewOnly(stream: seq<PaymentEvent>, p: State, es: seq<PaymentEvent>) {
    Distinct(es) && forall e :: e in es ==> e in stream && e.id !in p.ids
  }

  lemma AbsorbAccounts(s: Settings, p: State, log: seq<PaymentEvent>, es: seq<PaymentEvent>, e: PaymentEvent)
    requires e in es || Accounted(s, p.aggregate.latest, log, e)
    ensures Accounted(s, IngestAll(s, p.aggregate, es).latest, log + Taken(s, p.aggregate, es), e)
  {
    if e in es {
      TakenOrTooLate(s, p.aggregate, es, e);
    } else {
      LatestGrows(s, p.aggregate, es);
    }
  }

  lemma AbsorbRemembers(s: Settings, stream: seq<PaymentEvent>, p: State, log: seq<PaymentEvent>,
                        es: seq<PaymentEvent>, asOf: int, e: PaymentEvent)
    requires Sound(s, stream, p, log) && NewOnly(stream, p, es)
    requires e in log + Taken(s, p.aggregate, es)
    ensures e in stream && RememberedOrOld(s, Absorb(s, p, es, asOf).0, e)
  {
    if e in log {
      assert RememberedOrOld(s, p, e);
      LatestGrows(s, p.aggregate, es);
      if e.id in p.ids {
        RememberOld(p.ids, es, e.id);
      }
    } else {
      TakenFrom(s, p.aggregate, es, e);
      RememberNew(p.ids, es, e);
    }
  }

  lemma AbsorbKnows(s: Settings, stream: seq<PaymentEvent>, p: State, log: seq<PaymentEvent>,
                    es: seq<PaymentEvent>, asOf: int, e: PaymentEvent)
    requires SameIdSameEvent(stream) && Sound(s, stream, p, log) && NewOnly(stream, p, es)
    requires e in stream && e.id in Remember(p.ids, es)
    ensures Accounted(s, IngestAll(s, p.aggregate, es).latest, log + Taken(s, p.aggregate, es), e)
    ensures Remember(p.ids, es)[e.id] == e.at
  {
    if f :| f in es && f.id == e.id {
      SameEvent(stream, e, f);
      RememberNew(p.ids, es, e);
    } else {
      RememberOld(p.ids, es, e.id);
    }
    AbsorbAccounts(s, p, log, es, e);
  }

  lemma AbsorbPublished(stream: seq<PaymentEvent>, p: State, es: seq<PaymentEvent>, id: string)
    requires NewOnly(stream, p, es) && (forall i :: i in p.ids ==> Published(stream, i))
    requires id in Remember(p.ids, es)
    ensures Published(stream, id)
  {
    if f :| f in es && f.id == id {
      PublishedMember(stream, f);
    } else {
      RememberOld(p.ids, es, id);
    }
  }

  /** Absorbing new events, each once, keeps the state sound. */
  lemma AbsorbSound(s: Settings, stream: seq<PaymentEvent>, p: State, log: seq<PaymentEvent>, es: seq<PaymentEvent>,
                    asOf: int)
    requires SameIdSameEvent(stream) && Sound(s, stream, p, log) && NewOnly(stream, p, es)
    ensures Sound(s, stream, Absorb(s, p, es, asOf).0, log + Taken(s, p.aggregate, es))
  {
    var q, log' := Absorb(s, p, es, asOf).0, log + Taken(s, p.aggregate, es);
    AbsorbFaithful(s, p.aggregate, log, es, q.aggregate);
    AbsorbDistinct(s, stream, p, log, es);
    forall e | e in log' ensures e in stream && RememberedOrOld(s, q, e) {
      AbsorbRemembers(s, stream, p, log, es, asOf, e);
    }
    forall e | e in stream && e.id in q.ids ensures Accounted(s, q.aggregate.latest, log', e) && q.ids[e.id] == e.at {
      AbsorbKnows(s, stream, p, log, es, asOf, e);
    }
    forall id | id in q.ids ensures Published(stream, id) {
      AbsorbPublished(stream, p, es, id);
    }
  }

  lemma SameEvent(stream: seq<PaymentEvent>, e: PaymentEvent, f: PaymentEvent)
    requires SameIdSameEvent(stream) && e in stream && f in stream && e.id == f.id
    ensures e == f
  {
    var i :| 0 <= i < |stream| && stream[i] == e;
    var j :| 0 <= j < |stream| && stream[j] == f;
  }

  lemma AbsorbFaithful(s: Settings, a: Aggregate, log: seq<PaymentEvent>, es: seq<PaymentEvent>, b: Aggregate)
    requires Faithful(s, a, log)
    requires b.buckets == IngestAll(s, a, es).buckets && b.latest == IngestAll(s, a, es).latest
    ensures Faithful(s, b, log + Taken(s, a, es))
  {
    IngestAllFaithful(s, a, log, es);
    FaithfulTo(s, IngestAll(s, a, es), b, log + Taken(s, a, es));
  }

  lemma FaithfulTo(s: Settings, a: Aggregate, b: Aggregate, log: seq<PaymentEvent>)
    requires Faithful(s, a, log) && b.buckets == a.buckets && b.latest == a.latest
    ensures Faithful(s, b, log)
  {
    forall k ensures BucketExact(s.Bucket(), b, log, k) {
      assert BucketExact(s.Bucket(), a, log, k);
    }
    forall e | e in log ensures HasBucket(s, b, e) {
      assert HasBucket(s, a, e);
    }
  }

  /** A forgotten id is always older than the lateness gate: nothing is counted twice. */
  lemma AbsorbDistinct(s: Settings, stream: seq<PaymentEvent>, p: State, log: seq<PaymentEvent>, es: seq<PaymentEvent>)
    requires SameIdSameEvent(stream) && Sound(s, stream, p, log)
    requires Distinct(es) && (forall e :: e in es ==> e in stream && e.id !in p.ids)
    ensures Distinct(log + Taken(s, p.aggregate, es))
  {
    TakenDistinct(s, p.aggregate, es);
    CrossDistinct(s, stream, p, log, es);
  }

  lemma CrossDistinct(s: Settings, stream: seq<PaymentEvent>, p: State, log: seq<PaymentEvent>, es: seq<PaymentEvent>)
    requires SameIdSameEvent(stream) && Sound(s, stream, p, log)
    requires forall e :: e in es ==> e in stream && e.id !in p.ids
    ensures Distinct(Taken(s, p.aggregate, es)) ==> Distinct(log + Taken(s, p.aggregate, es))
  {
    var taken := Taken(s, p.aggregate, es);
    forall i, j | 0 <= i < |log| && 0 <= j < |taken| ensures log[i].id != taken[j].id {
      var e, f := log[i], taken[j];
      assert e in log && f in taken;
      TakenFrom(s, p.aggregate, es, f);
      assert RememberedOrOld(s, p, e);
      if e.id == f.id {
        SameEvent(stream, e, f);
      }
    }
  }

  lemma SettleSound(s: Settings, stream: seq<PaymentEvent>, p: State, log: seq<PaymentEvent>)
    requires Sound(s, stream, p, log)
    ensures Sound(s, stream, Settle(s, p), log) && Sound(s, stream, Checkpoint(s, Settle(s, p)), log)
  {
    ExportFaithful(s, p.aggregate, log);
    forall e | e in log
      ensures RememberedOrOld(s, Settle(s, p), e) && RememberedOrOld(s, Checkpoint(s, Settle(s, p)), e)
    {
      assert RememberedOrOld(s, p, e);
    }
  }

  lemma PublishedMember(stream: seq<PaymentEvent>, e: PaymentEvent)
    requires e in stream
    ensures Published(stream, e.id)
  {
    var i :| 0 <= i < |stream| && stream[i] == e;
  }

  /** One more published event keeps a state sound. */
  lemma PublishSound(s: Settings, stream: seq<PaymentEvent>, e: PaymentEvent, p: State, log: seq<PaymentEvent>)
    requires Sound(s, stream, p, log) && SameIdSameEvent(stream + [e])
    ensures Sound(s, stream + [e], p, log)
  {
    forall id | id in p.ids ensures Published(stream + [e], id) {
      StillPublished(stream, e, id);
    }
    forall f | f in stream + [e] && f.id in p.ids
      ensures Accounted(s, p.aggregate.latest, log, f) && p.ids[f.id] == f.at
    {
      AlreadyPublished(stream, e, f);
    }
  }

  lemma StillPublished(stream: seq<PaymentEvent>, e: PaymentEvent, id: string)
    requires Published(stream, id)
    ensures Published(stream + [e], id)
  {
    var i :| 0 <= i < |stream| && stream[i].id == id;
    assert (stream + [e])[i].id == id;
  }

  lemma AlreadyPublished(stream: seq<PaymentEvent>, e: PaymentEvent, f: PaymentEvent)
    requires SameIdSameEvent(stream + [e]) && f in stream + [e] && Published(stream, f.id)
    ensures f in stream
  {
    var i :| 0 <= i < |stream| && stream[i].id == f.id;
    assert (stream + [e])[i] == stream[i];
    SameEvent(stream + [e], f, stream[i]);
  }

  lemma PublishRecords(s: Settings, w: World, e: PaymentEvent)
    requires Records(s, w) && Enabled(w, Publish(e))
    ensures Records(s, Step(s, w, Publish(e)))
  {
    var w' := Step(s, w, Publish(e));
    if w.disk.Some? {
      PublishSound(s, w.stream, e, w.disk.value, w.diskLog);
    }
    forall f | f in w'.stream && f.id in w.dedupe ensures Durable(s, w', f) {
      AlreadyPublished(w.stream, e, f);
      assert Durable(s, w, f);
    }
    forall id | id in w.dedupe ensures Published(w'.stream, id) {
      StillPublished(w.stream, e, id);
    }
    assert forall i :: i in w.acked ==> w'.stream[i] == w.stream[i];
  }

  lemma PublishPending(s: Settings, w: World, e: PaymentEvent)
    requires PendingFits(w) && PendingSafe(s, w)
    ensures var w' := w.(stream := w.stream + [e]); PendingFits(w') && PendingSafe(s, w')
  {
    var w', pending := w.(stream := w.stream + [e]), PendingOf(w.phase);
    assert Events(w'.stream, pending) == Events(w.stream, pending);
    assert forall k :: 0 <= k < |pending| ==> w'.stream[pending[k]] == w.stream[pending[k]];
    assert forall f :: Durable(s, w, f) <==> Durable(s, w', f);
  }

  lemma PublishStep(s: Settings, w: World, e: PaymentEvent)
    requires Invariant(s, w) && Enabled(w, Publish(e))
    ensures Invariant(s, Step(s, w, Publish(e)))
  {
    PublishRecords(s, w, e);
    PublishPending(s, w, e);
    PublishSound(s, w.stream, e, w.memory, w.memoryLog);
    assert forall f :: Durable(s, w, f) <==> Durable(s, Step(s, w, Publish(e)), f);
  }

  lemma DropMessage(stream: seq<PaymentEvent>, left: seq<nat>, i: nat, right: seq<nat>)
    requires Fits(stream, left + [i] + right) && Distinct(Events(stream, left + [i] + right))
    ensures Fits(stream, left + right) && Distinct(Events(stream, left + right))
  {
    var all, rest := left + [i] + right, left + right;
    assert forall k :: 0 <= k < |rest| ==> rest[k] == all[if k < |left| then k else k + 1];
    forall j, k | 0 <= j < k < |rest| ensures Events(stream, rest)[j].id != Events(stream, rest)[k].id {
      var j', k' := if j < |left| then j else j + 1, if k < |left| then k else k + 1;
      assert Events(stream, all)[j'].id != Events(stream, all)[k'].id;
    }
  }

  lemma ScanStep(s: Settings, w: World)
    requires Invariant(s, w) && Enabled(w, Scan)
    ensures Invariant(s, Step(s, w, Scan))
  {
    var w', todo, pending := Step(s, w, Scan), w.phase.todo, w.phase.pending;
    assert PendingOf(w.phase) == pending + [todo[0]] + todo[1..];
    RecordsKept(s, w, w');
    if w.stream[todo[0]].id in w.dedupe {
      DropMessage(w.stream, pending, todo[0], todo[1..]);
    } else {
      assert PendingOf(w'.phase) == pending + [todo[0]] + todo[1..];
    }
  }

  /** The batch of the pending messages, and what of it is new. */
  lemma BatchOf(w: World, pending: seq<nat>)
    requires Fits(w.stream, pending) && Distinct(Events(w.stream, pending))
    ensures var batch := Events(w.stream, pending); var es := NewPayments(w.memory.ids, batch);
      && NewOnly(w.stream, w.memory, es)
      && (forall k :: 0 <= k < |pending| ==> w.stream[pending[k]] in es || w.stream[pending[k]].id in w.memory.ids)
  {
    var batch := Events(w.stream, pending);
    NewPaymentsFrom(w.memory.ids, batch);
    NewPaymentsDistinct(w.memory.ids, batch);
    assert forall k :: 0 <= k < |pending| ==> batch[k] in batch && batch[k] == w.stream[pending[k]];
  }

  lemma ProcessStep(s: Settings, w: World, asOf: int)
    requires Invariant(s, w) && Enabled(w, Process(asOf))
    ensures Invariant(s, Step(s, w, Process(asOf)))
  {
    var pending := w.phase.pending;
    assert PendingOf(w.phase) == pending;
    RecordsKept(s, w, Step(s, w, Process(asOf)));
    BatchOf(w, pending);
    if pending != [] {
      if NewPayments(w.memory.ids, Events(w.stream, pending)) == [] {
        ProcessOld(s, w, asOf, pending);
      } else {
        ProcessNew(s, w, asOf, pending, NewPayments(w.memory.ids, Events(w.stream, pending)));
      }
    }
  }

  lemma ProcessOld(s: Settings, w: World, asOf: int, pending: seq<nat>)
    requires Invariant(s, w) && Enabled(w, Process(asOf)) && pending == w.phase.pending != []
    requires NewPayments(w.memory.ids, Events(w.stream, pending)) == []
    requires forall k :: 0 <= k < |pending| ==> w.stream[pending[k]].id in w.memory.ids
    ensures Invariant(s, Step(s, w, Process(asOf)))
  {
    var w' := Step(s, w, Process(asOf));
    RecordsKept(s, w, w');
    forall k | 0 <= k < |pending| ensures Durable(s, w', w.stream[pending[k]]) {
      NothingNew(s, w, w.stream[pending[k]]);
    }
  }

  /** What processing new payments makes of the world. */
  lemma ProcessIs(s: Settings, w: World, asOf: int, pending: seq<nat>, es: seq<PaymentEvent>)
    requires Enabled(w, Process(asOf)) && pending == w.phase.pending != []
    requires es == NewPayments(w.memory.ids, Events(w.stream, pending)) != []
    ensures Step(s, w, Process(asOf)) == w.(memory := Absorb(s, w.memory, es, asOf).0,
      memoryLog := w.memoryLog + Taken(s, w.memory.aggregate, es), phase := Persisting(pending))
  {
  }

  lemma AbsorbedLatest(s: Settings, p: State, es: seq<PaymentEvent>, asOf: int)
    ensures Absorb(s, p, es, asOf).0.aggregate.latest == IngestAll(s, p.aggregate, es).latest
  {
  }

  /** A memory that moves ahead of the disk: it is sound, holds what is durable, and accounts
      for the batch. */
  lemma MovesAhead(s: Settings, w: World, q: State, log: seq<PaymentEvent>, pending: seq<nat>)
    requires Records(s, w) && Sound(s, w.stream, q, log) && Fits(w.stream, pending)
    requires forall e :: Durable(s, w, e) ==> Accounted(s, q.aggregate.latest, log, e)
    requires forall k :: 0 <= k < |pending| ==> Accounted(s, q.aggregate.latest, log, w.stream[pending[k]])
    ensures Invariant(s, w.(memory := q, memoryLog := log, phase := Persisting(pending)))
  {
    var w' := w.(memory := q, memoryLog := log, phase := Persisting(pending));
    assert forall e :: Durable(s, w', e) <==> Durable(s, w, e);
    RecordsKept(s, w, w');
  }

  lemma ProcessNew(s: Settings, w: World, asOf: int, pending: seq<nat>, es: seq<PaymentEvent>)
    requires Invariant(s, w) && Enabled(w, Process(asOf)) && pending == w.phase.pending != []
    requires es == NewPayments(w.memory.ids, Events(w.stream, pending)) != []
    requires NewOnly(w.stream, w.memory, es)
    requires forall k :: 0 <= k < |pending| ==> w.stream[pending[k]] in es || w.stream[pending[k]].id in w.memory.ids
    ensures Invariant(s, Step(s, w, Process(asOf)))
  {
    var q, log := Absorb(s, w.memory, es, asOf).0, w.memoryLog + Taken(s, w.memory.aggregate, es);
    AbsorbSound(s, w.stream, w.memory, w.memoryLog, es, asOf);
    AbsorbedLatest(s, w.memory, es, asOf);
    AbsorbKeeps(s, w, es);
    forall k | 0 <= k < |pending| ensures Accounted(s, q.aggregate.latest, log, w.stream[pending[k]]) {
      KnownAccounted(s, w, es, w.stream[pending[k]]);
    }
    MovesAhead(s, w, q, log, pending);
    ProcessIs(s, w, asOf, pending, es);
  }

  lemma KnownAccounted(s: Settings, w: World, es: seq<PaymentEvent>, e: PaymentEvent)
    requires Sound(s, w.stream, w.memory, w.memoryLog)
    requires e in w.stream && (e in es || e.id in w.memory.ids)
    ensures Accounted(s, IngestAll(s, w.memory.aggregate, es).latest, w.memoryLog + Taken(s, w.memory.aggregate, es), e)
  {
    AbsorbAccounts(s, w.memory, w.memoryLog, es, e);
  }

  lemma AbsorbKeeps(s: Settings, w: World, es: seq<PaymentEvent>)
    requires DiskCurrent(w)
    ensures forall e :: Durable(s, w, e) ==>
      Accounted(s, IngestAll(s, w.memory.aggregate, es).latest, w.memoryLog + Taken(s, w.memory.aggregate, es), e)
  {
    forall e | Durable(s, w, e)
      ensures Accounted(s, IngestAll(s, w.memory.aggregate, es).latest, w.memoryLog + Taken(s, w.memory.aggregate, es),
                        e)
    {
      AbsorbAccounts(s, w.memory, w.memoryLog, es, e);
    }
  }

  lemma NothingNew(s: Settings, w: World, e: PaymentEvent)
    requires Sound(s, w.stream, w.memory, w.memoryLog) && DiskCurrent(w)
    requires e in w.stream && e.id in w.memory.ids
    ensures Durable(s, w, e)
  {
    assert Accounted(s, w.memory.aggregate.latest, w.memoryLog, e);
  }

  lemma PersistStep(s: Settings, w: World)
    requires Invariant(s, w) && Enabled(w, Persist)
    ensures Invariant(s, Step(s, w, Persist))
  {
    var w' := Step(s, w, Persist);
    SettleSound(s, w.stream, w.memory, w.memoryLog);
    forall e | e in w.stream && e.id in w.dedupe ensures Durable(s, w', e) {
      StaysDurable(s, w, e);
    }
  }

  /** What was durable before a write is durable after it. */
  lemma StaysDurable(s: Settings, w: World, e: PaymentEvent)
    requires Invariant(s, w) && w.phase.Persisting? && Durable(s, w, e)
    ensures Durable(s, Step(s, w, Persist), e)
  {
  }

  lemma MarkStep(s: Settings, w: World)
    requires Invariant(s, w) && Enabled(w, Mark)
    ensures Invariant(s, Step(s, w, Mark))
  {
    var w' := Step(s, w, Mark);
    assert forall e :: Durable(s, w, e) <==> Durable(s, w', e);
    if w.phase.pending != [] {
      var f := w.stream[w.phase.pending[0]];
      PublishedMember(w.stream, f);
      forall e | e in w.stream && e.id in w'.dedupe ensures Durable(s, w', e) {
        if e.id == f.id {
          SameEvent(w.stream, e, f);
        }
      }
    }
  }

  lemma AckStep(s: Settings, w: World)
    requires Invariant(s, w) && Enabled(w, Ack)
    ensures Invariant(s, Step(s, w, Ack))
  {
    var w' := Step(s, w, Ack);
    RecordsKept(s, w, w');
    assert forall k :: 0 <= k < |w'.phase.pending| ==> w'.phase.pending[k] == w.phase.pending[k + 1];
  }

  lemma CrashStep(s: Settings, w: World)
    requires Invariant(s, w)
    ensures Invariant(s, Step(s, w, Crash))
  {
    RecordsKept(s, w, Step(s, w, Crash));
    FreshSound(s, w.stream);
  }

  lemma FreshSound(s: Settings, stream: seq<PaymentEvent>)
    ensures Sound(s, stream, Pipeline.FRESH, [])
  {
    assert forall k :: BucketExact(s.Bucket(), EMPTY, [], k);
  }

  lemma ClaimStep(s: Settings, w: World, messages: seq<nat>)
    requires Invariant(s, w) && Enabled(w, Claim(messages))
    ensures Invariant(s, Step(s, w, Claim(messages)))
  {
    RecordsKept(s, w, Step(s, w, Claim(messages)));
    assert [] + messages == messages;
  }

  lemma InvariantStep(s: Settings, w: World, a: Action)
    requires Invariant(s, w) && Enabled(w, a)
    ensures Invariant(s, Step(s, w, a))
  {
    match a
    case Publish(e) => PublishStep(s, w, e);
    case Claim(messages) => ClaimStep(s, w, messages);
    case Scan => ScanStep(s, w);
    case Process(asOf) => ProcessStep(s, w, asOf);
    case Persist => PersistStep(s, w);
    case Mark => MarkStep(s, w);
    case Ack => AckStep(s, w);
    case Crash => CrashStep(s, w);
  }

  lemma {:induction false} InvariantAlways(s: Settings, run: seq<Action>)
    requires Possible(s, run)
    ensures Invariant(s, After(s, run))
    decreases |run|
  {
    if run == [] {
      FreshSound(s, []);
    } else {
      InvariantAlways(s, Front(run));
      InvariantStep(s, After(s, Front(run)), Last(run));
    }
  }

  // ---- main results ---------------------------------------------------------

  /** In memory and on disk, along every run of claims, crashes and redeliveries: every
      bucket is the exact recount of a log in which no event id occurs twice. */
  lemma CountedAtMostOnce(s: Settings, run: seq<Action>, k: int)
    requires Possible(s, run)
    ensures var w := After(s, run);
      && Distinct(w.memoryLog) && Distinct(w.diskLog)
      && BucketExact(s.Bucket(), w.memory.aggregate, w.memoryLog, k)
      && (w.disk.Some? ==> BucketExact(s.Bucket(), w.disk.value.aggregate, w.diskLog, k))
  {
    InvariantAlways(s, run);
    var w := After(s, run);
    assert BucketExact(s.Bucket(), w.memory.aggregate, w.memoryLog, k);
    if w.disk.Some? {
      assert BucketExact(s.Bucket(), w.disk.value.aggregate, w.diskLog, k);
    } else {
      assert w.diskLog == [];
    }
  }

  /** An acknowledged event is in the log of the durable checkpoint or was dropped as too
      late, and its bucket is in the checkpoint unless it expired. */
  lemma AckedIsDurable(s: Settings, run: seq<Action>, i: nat)
    requires Possible(s, run) && i in After(s, run).acked
    ensures var w := After(s, run);
      && i < |w.stream| && w.disk.Some?
      && (TooLate(s, w.disk.value.aggregate.latest, w.stream[i].at)
          || (w.stream[i] in w.diskLog && HasBucket(s, w.disk.value.aggregate, w.stream[i])))
  {
    InvariantAlways(s, run);
    var w := After(s, run);
    assert Durable(s, w, w.stream[i]);
    if w.stream[i] in w.diskLog {
      assert HasBucket(s, w.disk.value.aggregate, w.stream[i]);
    }
  }

  /** So in memory and restored from disk, every bucket and every window conserves its
      counts: counters are balanced, parts sum to the whole, combinations roll up to pairs
      and singles. */
  lemma ReachableCountsConserved(s: Settings, run: seq<Action>, lo: int, hi: int)
    requires Possible(s, run)
    ensures AggregateConserved(s, After(s, run).memory.aggregate, lo, hi)
    ensures After(s, run).disk.Some? ==> AggregateConserved(s, After(s, run).disk.value.aggregate, lo, hi)
  {
    InvariantAlways(s, run);
    var w := After(s, run);
    ExactConserved(s.Bucket(), w.memory.aggregate, w.memoryLog, lo, hi);
    if w.disk.Some? {
      ExactConserved(s.Bucket(), w.disk.value.aggregate, w.diskLog, lo, hi);
    }
  }

  ghost predicate AggregateConserved(s: Settings, a: Aggregate, lo: int, hi: int) {
    && (forall k :: k in a.buckets ==> Conserved(a.buckets[k]))
    && Conserved(Window(s.Bucket(), a.buckets, lo, hi))
  }
}
