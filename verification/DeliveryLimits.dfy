/** Where the guarantees of module Delivery end: a batch that repeats an id, and a write
    that raises instead of crashing. */
module DeliveryLimits {
  import opened Lists
  import opened Options
  import opened Config
  import opened Rollups
  import opened Aggregation
  import opened Pipeline
  import opened Ledger
  import opened Delivery
  import Consumer

  /** A repeated id in the batch is harmless when its repetitions arrive too late. */
  predicate RepeatsTooLate(s: Settings, a: Aggregate, es: seq<PaymentEvent>) {
    forall i, j :: 0 <= i < j < |es| && es[i].id == es[j].id ==> TooLate(s, IngestAll(s, a, es[..j]).latest, es[j].at)
  }

  ghost predicate Has(es: seq<PaymentEvent>, id: string) { exists e :: e in es && e.id == id }

  lemma DistinctSnoc(es: seq<PaymentEvent>, e: PaymentEvent)
    ensures Distinct(es + [e]) <==> Distinct(es) && !Has(es, e.id)
  {
    assert forall i :: 0 <= i < |es| ==> (es + [e])[i] == es[i];
    if Has(es, e.id) {
      var f :| f in es && f.id == e.id;
      var i :| 0 <= i < |es| && es[i] == f;
      assert (es + [e])[i].id == (es + [e])[|es|].id;
    }
    if Distinct(es + [e]) {
      forall i, j | 0 <= i < j < |es| ensures es[i].id != es[j].id {
        assert (es + [e])[i].id != (es + [e])[j].id;
      }
    }
  }

  lemma RepeatsSnoc(s: Settings, a: Aggregate, prev: seq<PaymentEvent>, e: PaymentEvent)
    ensures RepeatsTooLate(s, a, prev + [e]) <==>
      RepeatsTooLate(s, a, prev) && (Has(prev, e.id) ==> TooLate(s, IngestAll(s, a, prev).latest, e.at))
  {
    var es := prev + [e];
    assert es[..|prev|] == prev;
    assert forall j :: 0 <= j < |prev| ==> es[j] == prev[j] && es[..j] == prev[..j];
    if Has(prev, e.id) {
      var f :| f in prev && f.id == e.id;
      var i :| 0 <= i < |prev| && prev[i] == f;
      assert es[i].id == es[|prev|].id;
    }
    if RepeatsTooLate(s, a, es) {
      forall i, j | 0 <= i < j < |prev| && prev[i].id == prev[j].id
        ensures TooLate(s, IngestAll(s, a, prev[..j]).latest, prev[j].at)
      {
        assert es[i].id == es[j].id;
      }
    }
  }

  lemma {:induction false} TakenDistinctIff(s: Settings, stream: seq<PaymentEvent>, a: Aggregate, es: seq<PaymentEvent>)
    requires SameIdSameEvent(stream) && (forall e :: e in es ==> e in stream)
    ensures Distinct(Taken(s, a, es)) <==> RepeatsTooLate(s, a, es)
  {
    if es != [] {
      assert es == Front(es) + [Last(es)];
      TakenDistinctIff(s, stream, a, Front(es));
      RepeatsSnoc(s, a, Front(es), Last(es));
      DistinctSnoc(Taken(s, a, Front(es)), Last(es));
      if !TooLate(s, IngestAll(s, a, Front(es)).latest, Last(es).at) {
        RepeatTaken(s, stream, a, Front(es), Last(es));
      }
    }
  }

  /** Where an event is accepted, an earlier occurrence of its id was accepted too. */
  lemma RepeatTaken(s: Settings, stream: seq<PaymentEvent>, a: Aggregate, prev: seq<PaymentEvent>, e: PaymentEvent)
    requires SameIdSameEvent(stream) && e in stream && (forall f :: f in prev ==> f in stream)
    requires !TooLate(s, IngestAll(s, a, prev).latest, e.at)
    ensures Has(prev, e.id) <==> Has(Taken(s, a, prev), e.id)
  {
    if f :| f in prev && f.id == e.id {
      SameEvent(stream, e, f);
      TakenOrTooLate(s, a, prev, f);
    }
    if f :| f in Taken(s, a, prev) && f.id == e.id {
      TakenFrom(s, a, prev, f);
    }
  }

  /** A batch keeps the ledger free of repeated ids exactly when every repetition inside
      the batch is too late. */
  lemma CountedOnceIff(s: Settings, stream: seq<PaymentEvent>, p: State, log: seq<PaymentEvent>,
                       payments: seq<PaymentEvent>)
    requires SameIdSameEvent(stream) && Sound(s, stream, p, log) && (forall e :: e in payments ==> e in stream)
    ensures var es := NewPayments(p.ids, payments);
      Distinct(log + Taken(s, p.aggregate, es)) <==> RepeatsTooLate(s, p.aggregate, es)
  {
    var es := NewPayments(p.ids, payments);
    var taken := Taken(s, p.aggregate, es);
    NewPaymentsFrom(p.ids, payments);
    TakenDistinctIff(s, stream, p.aggregate, es);
    CrossDistinct(s, stream, p, log, es);
    if Distinct(log + taken) {
      forall i, j | 0 <= i < j < |taken| ensures taken[i].id != taken[j].id {
        assert (log + taken)[|log| + i].id != (log + taken)[|log| + j].id;
      }
    }
  }

  /** The same event twice in the first batch is counted twice. */
  lemma RepeatInBatchCountsTwice(s: Settings, e: PaymentEvent, asOf: int)
    ensures var p, start := ProcessBatch(s, Pipeline.FRESH, [e, e], asOf).0, BucketStart(s.Bucket(), e.at);
      start in p.aggregate.buckets && Get(p.aggregate.buckets[start], Overall).attempts == 2
  {
    var none: map<string, int> := map[];
    assert Front([e, e]) == [e] && Front([e]) == [];
    assert NewPayments(none, [e]) == [e] && NewPayments(none, [e, e]) == [e, e];
    var one := Ingest(s, EMPTY, e).0;
    assert IngestAll(s, EMPTY, []) == EMPTY;
    assert IngestAll(s, EMPTY, [e]) == one;
    assert IngestAll(s, EMPTY, [e, e]) == Ingest(s, one, e).0;
    TwiceIsTwo(e);
  }

  lemma TwiceIsTwo(e: PaymentEvent)
    ensures Get(Merge(Merge(map[], OneRollup(e)), OneRollup(e)), Overall).attempts == 2
    ensures Overall in Merge(Merge(map[], OneRollup(e)), OneRollup(e))
  {
    assert SlotsOf(e)[0] == Overall;
    GetMerge(map[], OneRollup(e), Overall);
    GetMerge(Merge(map[], OneRollup(e)), OneRollup(e), Overall);
  }

  /** A projection write that raises, instead of crashing the process: the memory keeps
      the batch, nothing is written, and the messages stay unacknowledged. */
  function Raise(w: World): World
    requires w.phase.Persisting?
  {
    w.(phase := Idle)
  }

  /** The actions one after the other, as long as each is possible. */
  ghost function Play(s: Settings, w: World, actions: seq<Action>): Option<World>
    decreases |actions|
  {
    if actions == [] then Some(w)
    else if Enabled(w, actions[0]) then Play(s, Step(s, w, actions[0]), actions[1..])
    else None
  }

  lemma PlayOne(s: Settings, w: World, a: Action, rest: seq<Action>)
    requires Enabled(w, a)
    ensures Play(s, w, [a] + rest) == Play(s, Step(s, w, a), rest)
  {
    assert ([a] + rest)[1..] == rest;
  }

  lemma ProcessOne(s: Settings, w: World, e: PaymentEvent, asOf: int)
    requires w.phase == Scanning([], [0]) && w.stream == [e] && w.memory == Pipeline.FRESH
    ensures var w' := Step(s, w, Process(asOf));
      && w'.phase == Persisting([0]) && e.id in w'.memory.ids
      && (w'.stream, w'.dedupe, w'.acked, w'.disk) == (w.stream, w.dedupe, w.acked, w.disk)
  {
    assert Events([e], [0]) == [e] && Front([e]) == [];
    assert NewPayments(w.memory.ids, [e]) == [e];
    assert Remember(Pipeline.FRESH.ids, [e]) == map[e.id := e.at];
  }

  /** The batch of one event, up to where it is to be written. */
  lemma Unwritten(s: Settings, e: PaymentEvent, asOf: int) returns (w: World)
    ensures Play(s, START, [Publish(e)] + ([Claim([0])] + ([Scan] + ([Process(asOf)] + [])))) == Some(w)
    ensures w.phase.Persisting? && w.stream == [e] && w.dedupe == {} && w.acked == {} && w.disk.None?
    ensures e.id in w.memory.ids
  {
    var w1 := Step(s, START, Publish(e));
    var w2 := Step(s, w1, Claim([0]));
    var w3 := Step(s, w2, Scan);
    ProcessOne(s, w3, e, asOf);
    w := Step(s, w3, Process(asOf));
    PlayOne(s, START, Publish(e), [Claim([0])] + ([Scan] + ([Process(asOf)] + [])));
    PlayOne(s, w1, Claim([0]), [Scan] + ([Process(asOf)] + []));
    PlayOne(s, w2, Scan, [Process(asOf)] + []);
    PlayOne(s, w3, Process(asOf), []);
  }

  /** With such a failure the promise breaks: the redelivered event is found in memory and
      acknowledged, and nothing durable holds it. */
  lemma RaisingLosesDurability(s: Settings, e: PaymentEvent, asOf: int)
    ensures var first := Play(s, START, [Publish(e)] + ([Claim([0])] + ([Scan] + ([Process(asOf)] + []))));
      && first.Some? && first.value.phase.Persisting?
      && var second := Play(s, Raise(first.value),
                            [Claim([0])] + ([Scan] + ([Process(asOf)] + ([Mark] + ([Ack] + [])))));
         second.Some? && second.value.stream == [e] && 0 in second.value.acked && second.value.disk.None?
  {
    var w := Unwritten(s, e, asOf);
    RaisedAgain(s, e, asOf, Raise(w));
  }

  lemma RaisedAgain(s: Settings, e: PaymentEvent, asOf: int, w: World)
    requires w.phase == Idle && w.stream == [e] && w.dedupe == {} && w.acked == {}
    requires e.id in w.memory.ids
    ensures var second := Play(s, w, [Claim([0])] + ([Scan] + ([Process(asOf)] + ([Mark] + ([Ack] + [])))));
      second.Some? && second.value.stream == [e] && 0 in second.value.acked && second.value.disk == w.disk
  {
    assert Events([e], [0]) == [e] && Front([e]) == [];
    var w1 := Step(s, w, Claim([0]));
    var w2 := Step(s, w1, Scan);
    assert w2.phase == Scanning([], [0]);
    assert NewPayments(w2.memory.ids, [e]) == [];
    var w3 := Step(s, w2, Process(asOf));
    var w4 := Step(s, w3, Mark);
    var w5 := Step(s, w4, Ack);
    PlayOne(s, w, Claim([0]), [Scan] + ([Process(asOf)] + ([Mark] + ([Ack] + []))));
    PlayOne(s, w1, Scan, [Process(asOf)] + ([Mark] + ([Ack] + [])));
    PlayOne(s, w2, Process(asOf), [Mark] + ([Ack] + []));
    PlayOne(s, w3, Mark, [Ack] + []);
    PlayOne(s, w4, Ack, []);
  }

  // ---- passes after such a failure ------------------------------------------------

  /** What a worker goes on with after any number of such failures: the records are sound
      and the memory holds whatever is durable, and perhaps more. */
  ghost predicate Ahead(s: Settings, w: World) {
    && w.phase.Idle? && Records(s, w)
    && Sound(s, w.stream, w.memory, w.memoryLog) && MemoryAhead(s, w)
  }

  lemma RaiseLeavesAhead(s: Settings, w: World)
    requires Invariant(s, w) && w.phase.Persisting?
    ensures Ahead(s, Raise(w))
  {
    RecordsKept(s, w, Raise(w));
    assert forall e :: Durable(s, Raise(w), e) <==> Durable(s, w, e);
  }

  /** The world in which a pass processes its messages. */
  ghost function BeforeProcessing(w: World, messages: seq<nat>): World
    requires w.phase.Idle? && Fits(w.stream, messages)
  {
    Consumer.Scanned(w.(phase := Scanning(messages, [])))
  }

  lemma {:induction false} UnmarkedFrom(stream: seq<PaymentEvent>, dedupe: set<string>, messages: seq<nat>, m: nat)
    requires Fits(stream, messages) && m in Consumer.Unmarked(stream, dedupe, messages)
    ensures m in messages
  {
    if m != messages[0] || stream[messages[0]].id in dedupe {
      UnmarkedFrom(stream, dedupe, messages[1..], m);
    }
  }

  lemma {:induction false} UnmarkedDistinct(stream: seq<PaymentEvent>, dedupe: set<string>, messages: seq<nat>)
    requires Fits(stream, messages) && Distinct(Events(stream, messages))
    ensures Distinct(Events(stream, Consumer.Unmarked(stream, dedupe, messages)))
  {
    if messages != [] {
      var first, rest := stream[messages[0]], messages[1..];
      assert Events(stream, messages) == [first] + Events(stream, rest);
      assert Distinct(Events(stream, rest)) by {
        forall i, j | 0 <= i < j < |rest| ensures Events(stream, rest)[i].id != Events(stream, rest)[j].id {
          assert Events(stream, messages)[i + 1].id != Events(stream, messages)[j + 1].id;
        }
      }
      UnmarkedDistinct(stream, dedupe, rest);
      var unmarked := Consumer.Unmarked(stream, dedupe, rest);
      forall k | 0 <= k < |unmarked| ensures Events(stream, unmarked)[k].id != first.id {
        UnmarkedFrom(stream, dedupe, rest, unmarked[k]);
        var m :| 0 <= m < |rest| && rest[m] == unmarked[k];
        assert Events(stream, messages)[0].id != Events(stream, messages)[m + 1].id;
      }
      assert Events(stream, [messages[0]] + unmarked) == [first] + Events(stream, unmarked);
    }
  }

  lemma {:induction false} UnmarkedOrSkipped(stream: seq<PaymentEvent>, dedupe: set<string>, messages: seq<nat>, m: nat)
    requires Fits(stream, messages) && m in messages
    ensures if stream[m].id in dedupe then m in Consumer.Skipped(stream, dedupe, messages)
      else m in Consumer.Unmarked(stream, dedupe, messages)
  {
    if m != messages[0] {
      UnmarkedOrSkipped(stream, dedupe, messages[1..], m);
    }
  }

  /** A pass over some messages; with whether it brings operational events as well. */
  datatype Pass = Pass(messages: seq<nat>, asOf: int, operations: bool)

  function PendingIn(w: World, p: Pass): seq<nat>
    requires Fits(w.stream, p.messages)
  {
    Consumer.Unmarked(w.stream, w.dedupe, p.messages)
  }

  function NewIn(w: World, p: Pass): seq<PaymentEvent>
    requires Fits(w.stream, p.messages)
  {
    NewPayments(w.memory.ids, Events(w.stream, PendingIn(w, p)))
  }

  /** The pass writes a checkpoint. */
  predicate Writes(w: World, p: Pass)
    requires Fits(w.stream, p.messages)
  {
    p.operations || NewIn(w, p) != []
  }

  /** A pass without a failure: new payments are processed and the checkpoint written;
      operational events alone only have it written. */
  ghost function Passed(s: Settings, w: World, p: Pass): World
    requires w.phase.Idle? && Fits(w.stream, p.messages)
  {
    var done := Consumer.Marked(BeforeProcessing(w, p.messages).(phase := Marking(PendingIn(w, p))));
    if !Writes(w, p) then done
    else
      var es := NewIn(w, p);
      var q := Settle(s, if es == [] then w.memory else Absorb(s, w.memory, es, p.asOf).0);
      var log := w.memoryLog + Taken(s, w.memory.aggregate, es);
      done.(memory := q, memoryLog := log, disk := Some(Checkpoint(s, q)), diskLog := log)
  }

  /** With payments only, it is the consumer's pass. */
  lemma PassedIsConsumed(s: Settings, w: World, p: Pass)
    requires w.phase.Idle? && Fits(w.stream, p.messages) && !p.operations
    ensures Passed(s, w, p) == Consumer.Consumed(s, w, p.messages, p.asOf)
  {
    var pending := PendingIn(w, p);
    var scanned := BeforeProcessing(w, p.messages);
    assert scanned.phase == Scanning([], [] + pending) && [] + pending == pending;
    if pending == [] {
      assert Events(w.stream, pending) == [];
    } else if NewIn(w, p) != [] {
      Consumer.NewBatch(s, w.memory, Events(w.stream, pending), p.asOf);
    }
  }

  /** The memory is sound, holds whatever is durable, and accounts for whatever is marked. */
  ghost predicate Held(s: Settings, w: World) {
    && w.phase.Idle? && SameIdSameEvent(w.stream)
    && Sound(s, w.stream, w.memory, w.memoryLog) && MemoryAhead(s, w)
    && (forall e :: e in w.stream && e.id in w.dedupe ==> InMemory(s, w, e))
  }

  predicate InMemory(s: Settings, w: World, e: PaymentEvent) {
    Accounted(s, w.memory.aggregate.latest, w.memoryLog, e)
  }

  /** What a pass leaves in memory and on disk. */
  lemma PassedState(s: Settings, w: World, p: Pass)
    requires w.phase.Idle? && Fits(w.stream, p.messages)
    ensures var v, es := Passed(s, w, p), NewIn(w, p);
      && v.stream == w.stream && v.phase.Idle?
      && v.dedupe == w.dedupe + Consumer.Ids(w.stream, PendingIn(w, p))
      && v.memoryLog == w.memoryLog + Taken(s, w.memory.aggregate, es)
      && v.memory.aggregate.latest == IngestAll(s, w.memory.aggregate, es).latest
      && (if Writes(w, p)
          then v.disk.Some? && v.disk.value.aggregate.latest == v.memory.aggregate.latest && v.diskLog == v.memoryLog
          else v.memory == w.memory && v.disk == w.disk && v.diskLog == w.diskLog)
  {
    assert w.memoryLog + [] == w.memoryLog;
    AbsorbedLatest(s, w.memory, NewIn(w, p), p.asOf);
  }

  /** After a pass every message it was delivered is acknowledged, marked and in memory. */
  lemma PassedAccounts(s: Settings, w: World, p: Pass, m: nat)
    requires Held(s, w) && Enabled(w, Claim(p.messages)) && m in p.messages
    ensures m in Passed(s, w, p).acked && w.stream[m].id in Passed(s, w, p).dedupe
    ensures InMemory(s, Passed(s, w, p), w.stream[m])
  {
    var pending := PendingIn(w, p);
    PassedState(s, w, p);
    UnmarkedOrSkipped(w.stream, w.dedupe, p.messages, m);
    UnmarkedDistinct(w.stream, w.dedupe, p.messages);
    BatchOf(w, pending);
    if w.stream[m].id !in w.dedupe {
      IdIn(w.stream, pending, m);
      var k :| 0 <= k < |pending| && pending[k] == m;
      KnownAccounted(s, w, NewIn(w, p), w.stream[m]);
    } else {
      AbsorbAccounts(s, w.memory, w.memoryLog, NewIn(w, p), w.stream[m]);
    }
  }

  lemma {:induction false} IdIn(stream: seq<PaymentEvent>, messages: seq<nat>, m: nat)
    requires Fits(stream, messages) && m in messages
    ensures stream[m].id in Consumer.Ids(stream, messages)
  {
    if m != messages[0] {
      IdIn(stream, messages[1..], m);
    }
  }

  lemma {:induction false} IdFrom(stream: seq<PaymentEvent>, messages: seq<nat>, id: string) returns (m: nat)
    requires Fits(stream, messages) && id in Consumer.Ids(stream, messages)
    ensures m in messages && stream[m].id == id
  {
    if stream[messages[0]].id == id {
      m := messages[0];
    } else {
      m := IdFrom(stream, messages[1..], id);
    }
  }

  /** One pass keeps all that; and it makes exactly what its memory then holds durable if it
      writes, and nothing else otherwise. */
  lemma PassedKeeps(s: Settings, w: World, p: Pass)
    requires Held(s, w) && Enabled(w, Claim(p.messages))
    ensures Held(s, Passed(s, w, p))
    ensures forall e :: InMemory(s, w, e) ==> InMemory(s, Passed(s, w, p), e)
    ensures forall e :: Durable(s, Passed(s, w, p), e) <==>
      if Writes(w, p) then InMemory(s, Passed(s, w, p), e) else Durable(s, w, e)
  {
    var v, es := Passed(s, w, p), NewIn(w, p);
    PassedState(s, w, p);
    PassedSound(s, w, p);
    forall e | InMemory(s, w, e) ensures InMemory(s, v, e) {
      AbsorbAccounts(s, w.memory, w.memoryLog, es, e);
    }
    forall e | e in w.stream && e.id in v.dedupe ensures InMemory(s, v, e) {
      if e.id !in w.dedupe {
        var m := IdFrom(w.stream, PendingIn(w, p), e.id);
        UnmarkedFrom(w.stream, w.dedupe, p.messages, m);
        SameEvent(w.stream, w.stream[m], e);
        PassedAccounts(s, w, p, m);
      }
    }
  }

  lemma PassedSound(s: Settings, w: World, p: Pass)
    requires Held(s, w) && Enabled(w, Claim(p.messages))
    ensures Sound(s, w.stream, Passed(s, w, p).memory, Passed(s, w, p).memoryLog)
  {
    var es := NewIn(w, p);
    PassedState(s, w, p);
    if es != [] {
      UnmarkedDistinct(w.stream, w.dedupe, p.messages);
      BatchOf(w, PendingIn(w, p));
      AbsorbSound(s, w.stream, w.memory, w.memoryLog, es, p.asOf);
      SettleSound(s, w.stream, Absorb(s, w.memory, es, p.asOf).0, w.memoryLog + Taken(s, w.memory.aggregate, es));
    } else {
      assert w.memoryLog + [] == w.memoryLog;
      SettleSound(s, w.stream, w.memory, w.memoryLog);
    }
  }

  // ---- runs of passes ---------------------------------------------------------------

  ghost predicate Deliverable(s: Settings, w: World, ps: seq<Pass>)
    requires w.phase.Idle?
    decreases |ps|, 0
  {
    ps == [] || (Deliverable(s, w, Front(ps)) && Enabled(AllPassed(s, w, Front(ps)), Claim(Last(ps).messages)))
  }

  ghost function AllPassed(s: Settings, w: World, ps: seq<Pass>): (v: World)
    requires w.phase.Idle? && Deliverable(s, w, ps)
    ensures v.phase.Idle? && v.stream == w.stream
    decreases |ps|, 1
  {
    if ps == [] then w
    else
      PassedState(s, AllPassed(s, w, Front(ps)), Last(ps));
      Passed(s, AllPassed(s, w, Front(ps)), Last(ps))
  }

  /** Some pass from the i-th on writes a checkpoint. */
  ghost predicate WrittenFrom(s: Settings, w: World, ps: seq<Pass>, i: nat)
    requires w.phase.Idle? && Deliverable(s, w, ps)
    decreases |ps|
  {
    ps != [] && ((i < |ps| && Writes(AllPassed(s, w, Front(ps)), Last(ps))) || WrittenFrom(s, w, Front(ps), i))
  }

  lemma {:induction false} AllPassedHeld(s: Settings, w: World, ps: seq<Pass>)
    requires Held(s, w) && Deliverable(s, w, ps)
    ensures Held(s, AllPassed(s, w, ps))
    decreases |ps|
  {
    if ps != [] {
      AllPassedHeld(s, w, Front(ps));
      PassedKeeps(s, AllPassed(s, w, Front(ps)), Last(ps));
    }
  }

  /** What the last of the passes changes for one event. */
  lemma LastPassed(s: Settings, w: World, ps: seq<Pass>, e: PaymentEvent)
    requires Held(s, w) && Deliverable(s, w, ps) && ps != []
    ensures var was, now := AllPassed(s, w, Front(ps)), AllPassed(s, w, ps);
      && Held(s, was) && Enabled(was, Claim(Last(ps).messages)) && now == Passed(s, was, Last(ps))
      && (InMemory(s, was, e) ==> InMemory(s, now, e))
      && (Durable(s, now, e) <==> if Writes(was, Last(ps)) then InMemory(s, now, e) else Durable(s, was, e))
  {
    AllPassedHeld(s, w, Front(ps));
    PassedKeeps(s, AllPassed(s, w, Front(ps)), Last(ps));
  }

  /** After such failures and any passes without one: a payment delivered in some pass, and
      acknowledged by it, is durable in the end exactly when it was before that pass, or that
      pass or a later one wrote a checkpoint. */
  lemma {:induction false} RaisedPassesDurableIff(s: Settings, w: World, ps: seq<Pass>, i: nat, m: nat, e: PaymentEvent)
    requires Held(s, w) && Deliverable(s, w, ps) && i < |ps| && m in ps[i].messages
    requires m < |w.stream| && e == w.stream[m]
    ensures Deliverable(s, w, ps[..i])
    ensures Durable(s, AllPassed(s, w, ps), e) <==>
      Durable(s, AllPassed(s, w, ps[..i]), e) || WrittenFrom(s, w, ps, i)
    ensures InMemory(s, AllPassed(s, w, ps), e)
    decreases |ps|
  {
    if i == |ps| - 1 {
      assert ps[..i] == Front(ps);
      DurableByLast(s, w, ps, m, e);
    } else {
      assert Front(ps)[..i] == ps[..i] && Front(ps)[i] == ps[i];
      RaisedPassesDurableIff(s, w, Front(ps), i, m, e);
      DurableStill(s, w, ps, i, e);
    }
  }

  lemma DurableByLast(s: Settings, w: World, ps: seq<Pass>, m: nat, e: PaymentEvent)
    requires Held(s, w) && Deliverable(s, w, ps) && ps != [] && m in Last(ps).messages
    requires m < |w.stream| && e == w.stream[m]
    ensures Durable(s, AllPassed(s, w, ps), e) <==>
      Durable(s, AllPassed(s, w, Front(ps)), e) || WrittenFrom(s, w, ps, |ps| - 1)
    ensures InMemory(s, AllPassed(s, w, ps), e)
  {
    LastPassed(s, w, ps, e);
    PassedAccounts(s, AllPassed(s, w, Front(ps)), Last(ps), m);
    NotWritten(s, w, Front(ps), |ps| - 1);
  }

  lemma DurableStill(s: Settings, w: World, ps: seq<Pass>, i: nat, e: PaymentEvent)
    requires Held(s, w) && Deliverable(s, w, ps) && i < |ps| - 1 && Deliverable(s, w, ps[..i])
    requires Durable(s, AllPassed(s, w, Front(ps)), e) <==>
      Durable(s, AllPassed(s, w, ps[..i]), e) || WrittenFrom(s, w, Front(ps), i)
    requires InMemory(s, AllPassed(s, w, Front(ps)), e)
    ensures Durable(s, AllPassed(s, w, ps), e) <==>
      Durable(s, AllPassed(s, w, ps[..i]), e) || WrittenFrom(s, w, ps, i)
    ensures InMemory(s, AllPassed(s, w, ps), e)
  {
    LastPassed(s, w, ps, e);
  }

  lemma {:induction false} NotWritten(s: Settings, w: World, ps: seq<Pass>, i: nat)
    requires w.phase.Idle? && Deliverable(s, w, ps) && i >= |ps|
    ensures !WrittenFrom(s, w, ps, i)
    decreases |ps|
  {
    if ps != [] {
      NotWritten(s, w, Front(ps), i);
    }
  }
}
