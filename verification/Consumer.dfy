/** The consumer's loops, and the proof that a pass without a crash is a run of the
    delivery steps. */
module Consumer {
  import opened Options
  import opened Config
  import opened Rollups
  import opened Pipeline
  import opened Ledger
  import opened Delivery
  import RuntimePipeline

  /** The messages whose event is not marked as processed. */
  function Unmarked(stream: seq<PaymentEvent>, dedupe: set<string>, messages: seq<nat>): (r: seq<nat>)
    requires Fits(stream, messages)
    ensures Fits(stream, r)
  {
    if messages == [] then []
    else if stream[messages[0]].id in dedupe then Unmarked(stream, dedupe, messages[1..])
    else [messages[0]] + Unmarked(stream, dedupe, messages[1..])
  }

  function Ids(stream: seq<PaymentEvent>, messages: seq<nat>): set<string>
    requires Fits(stream, messages)
  {
    if messages == [] then {} else {stream[messages[0]].id} + Ids(stream, messages[1..])
  }

  function Members(messages: seq<nat>): set<nat> { set m | m in messages }

  lemma IdsNext(stream: seq<PaymentEvent>, messages: seq<nat>, i: nat)
    requires Fits(stream, messages) && i < |messages|
    ensures Ids(stream, messages[i..]) == {stream[messages[i]].id} + Ids(stream, messages[i+1..])
    ensures Members(messages[i..]) == {messages[i]} + Members(messages[i+1..])
  {
    assert messages[i..][1..] == messages[i+1..] && messages[i..] == [messages[i]] + messages[i+1..];
  }

  /** The messages whose event is marked. */
  function Skipped(stream: seq<PaymentEvent>, dedupe: set<string>, messages: seq<nat>): set<nat>
    requires Fits(stream, messages)
  {
    if messages == [] then {}
    else (if stream[messages[0]].id in dedupe then {messages[0]} else {}) + Skipped(stream, dedupe, messages[1..])
  }

  lemma ScanNext(stream: seq<PaymentEvent>, dedupe: set<string>, messages: seq<nat>, i: nat)
    requires Fits(stream, messages) && i < |messages|
    ensures var marked := stream[messages[i]].id in dedupe;
      && Unmarked(stream, dedupe, messages[i..])
        == (if marked then [] else [messages[i]]) + Unmarked(stream, dedupe, messages[i+1..])
      && Skipped(stream, dedupe, messages[i..])
        == (if marked then {messages[i]} else {}) + Skipped(stream, dedupe, messages[i+1..])
  {
    assert messages[i..][1..] == messages[i+1..];
  }

  // ---- one pass as delivery steps -----------------------------------------------

  /** The run leads from w to v. */
  ghost predicate Leads(s: Settings, w: World, run: seq<Action>, v: World)
    decreases |run|
  {
    if run == [] then w == v else Enabled(w, run[0]) && Leads(s, Step(s, w, run[0]), run[1..], v)
  }

  lemma {:induction false} LeadsOn(s: Settings, w: World, run: seq<Action>, v: World, more: seq<Action>, u: World)
    requires Leads(s, w, run, v) && Leads(s, v, more, u)
    ensures Leads(s, w, run + more, u)
    decreases |run|
  {
    if run == [] {
      assert run + more == more;
    } else {
      LeadsOn(s, Step(s, w, run[0]), run[1..], v, more, u);
      assert (run + more)[0] == run[0] && (run + more)[1..] == run[1..] + more;
    }
  }

  lemma LeadsOne(s: Settings, w: World, a: Action)
    requires Enabled(w, a)
    ensures Leads(s, w, [a], Step(s, w, a))
  {
    assert [a][1..] == [];
  }

  function Repeat(n: nat, block: seq<Action>): seq<Action> {
    if n == 0 then [] else block + Repeat(n - 1, block)
  }

  /** Scanning acknowledges the marked messages and sets the others aside. */
  ghost function Scanned(w: World): World
    requires w.phase.Scanning? && Fits(w.stream, w.phase.todo)
  {
    w.(acked := w.acked + Skipped(w.stream, w.dedupe, w.phase.todo),
       phase := Scanning([], w.phase.pending + Unmarked(w.stream, w.dedupe, w.phase.todo)))
  }

  lemma {:induction false} ScanAll(s: Settings, w: World)
    requires w.phase.Scanning? && Fits(w.stream, w.phase.todo)
    ensures Leads(s, w, Repeat(|w.phase.todo|, [Scan]), Scanned(w))
    decreases if w.phase.Scanning? then |w.phase.todo| else 0
  {
    var todo := w.phase.todo;
    if todo == [] {
      ScannedNothing(w);
    } else {
      var next := Step(s, w, Scan);
      ScanAll(s, next);
      ScanStepJoins(s, w);
      LeadsOne(s, w, Scan);
      LeadsOn(s, w, [Scan], next, Repeat(|todo| - 1, [Scan]), Scanned(next));
    }
  }

  lemma ScannedNothing(w: World)
    requires w.phase.Scanning? && w.phase.todo == []
    ensures Scanned(w) == w
  {
    assert w.phase.pending + [] == w.phase.pending;
    assert Skipped(w.stream, w.dedupe, []) == {};
  }

  lemma ScanStepJoins(s: Settings, w: World)
    requires w.phase.Scanning? && w.phase.todo != [] && Fits(w.stream, w.phase.todo)
    ensures Scanned(Step(s, w, Scan)) == Scanned(w)
  {
    var todo, pending := w.phase.todo, w.phase.pending;
    var rest := Unmarked(w.stream, w.dedupe, todo[1..]);
    assert (w.acked + {todo[0]}) + Skipped(w.stream, w.dedupe, todo[1..])
      == w.acked + ({todo[0]} + Skipped(w.stream, w.dedupe, todo[1..]));
    assert (pending + [todo[0]]) + rest == pending + ([todo[0]] + rest);
  }

  lemma MembersCons(m: nat, rest: seq<nat>)
    ensures Members([m] + rest) == {m} + Members(rest)
  {
  }

  /** Marking marks and acknowledges every message set aside. */
  ghost function Marked(w: World): World
    requires w.phase.Marking? && Fits(w.stream, w.phase.pending)
  {
    w.(dedupe := w.dedupe + Ids(w.stream, w.phase.pending), acked := w.acked + Members(w.phase.pending), phase := Idle)
  }

  lemma {:induction false} MarkAll(s: Settings, w: World)
    requires w.phase.Marking? && Fits(w.stream, w.phase.pending)
    ensures Leads(s, w, Repeat(|w.phase.pending|, [Mark, Ack]) + [Mark], Marked(w))
    decreases if w.phase.Marking? then |w.phase.pending| else 0
  {
    var pending := w.phase.pending;
    if pending == [] {
      assert Ids(w.stream, []) == {} && Members([]) == {};
      assert Marked(w) == Step(s, w, Mark);
      LeadsOne(s, w, Mark);
      assert Repeat(0, [Mark, Ack]) + [Mark] == [Mark];
    } else {
      var next := Step(s, Step(s, w, Mark), Ack);
      MarkAndAck(s, w);
      MarkAll(s, next);
      MarkStepJoins(s, w);
      var rest := Repeat(|pending| - 1, [Mark, Ack]) + [Mark];
      LeadsOn(s, w, [Mark, Ack], next, rest, Marked(next));
      assert [Mark, Ack] + rest == Repeat(|pending|, [Mark, Ack]) + [Mark];
    }
  }

  lemma MarkAndAck(s: Settings, w: World)
    requires w.phase.Marking? && w.phase.pending != [] && Fits(w.stream, w.phase.pending)
    ensures Leads(s, w, [Mark, Ack], Step(s, Step(s, w, Mark), Ack))
  {
    LeadsOne(s, w, Mark);
    LeadsOne(s, Step(s, w, Mark), Ack);
    LeadsOn(s, w, [Mark], Step(s, w, Mark), [Ack], Step(s, Step(s, w, Mark), Ack));
    assert [Mark] + [Ack] == [Mark, Ack];
  }

  lemma MarkStepJoins(s: Settings, w: World)
    requires w.phase.Marking? && w.phase.pending != [] && Fits(w.stream, w.phase.pending)
    ensures Marked(Step(s, Step(s, w, Mark), Ack)) == Marked(w)
  {
    var pending := w.phase.pending;
    assert pending == [pending[0]] + pending[1..];
    MembersCons(pending[0], pending[1..]);
    assert (w.dedupe + {w.stream[pending[0]].id}) + Ids(w.stream, pending[1..]) == w.dedupe + Ids(w.stream, pending);
    assert (w.acked + {pending[0]}) + Members(pending[1..]) == w.acked + Members(pending);
  }

  // ---- the whole pass -----------------------------------------------------------

  ghost predicate Reachable(s: Settings, w: World, v: World) {
    exists run :: Leads(s, w, run, v)
  }

  /** Processing and persisting: the pending payments go through the pipeline at once, and
      a batch with nothing new writes nothing. */
  ghost function Processed(s: Settings, w: World, asOf: int): World
    requires w.phase.Scanning? && w.phase.todo == [] && w.phase.pending != [] && Fits(w.stream, w.phase.pending)
  {
    var payments := Events(w.stream, w.phase.pending);
    var es, (q, out) := NewPayments(w.memory.ids, payments), ProcessBatch(s, w.memory, payments, asOf);
    var log := w.memoryLog + Taken(s, w.memory.aggregate, es);
    if out.None? then w.(phase := Marking(w.phase.pending))
    else w.(memory := q, memoryLog := log, disk := Some(Checkpoint(s, q)), diskLog := log,
            phase := Marking(w.phase.pending))
  }

  predicate ReadyToProcess(w: World) {
    w.phase.Scanning? && w.phase.todo == [] && w.phase.pending != [] && Fits(w.stream, w.phase.pending)
  }

  lemma NothingNewSteps(s: Settings, w: World, asOf: int)
    requires ReadyToProcess(w) && NewPayments(w.memory.ids, Events(w.stream, w.phase.pending)) == []
    ensures Processed(s, w, asOf) == Step(s, w, Process(asOf))
  {
  }

  lemma NewBatch(s: Settings, p: State, payments: seq<PaymentEvent>, asOf: int)
    requires NewPayments(p.ids, payments) != []
    ensures ProcessBatch(s, p, payments, asOf).0 == Settle(s, Absorb(s, p, NewPayments(p.ids, payments), asOf).0)
    ensures ProcessBatch(s, p, payments, asOf).1.Some?
  {
  }

  lemma NewSteps(s: Settings, w: World, asOf: int)
    requires ReadyToProcess(w) && NewPayments(w.memory.ids, Events(w.stream, w.phase.pending)) != []
    ensures Enabled(Step(s, w, Process(asOf)), Persist)
    ensures Processed(s, w, asOf) == Step(s, Step(s, w, Process(asOf)), Persist)
  {
    var pending := w.phase.pending;
    var payments := Events(w.stream, pending);
    var es := NewPayments(w.memory.ids, payments);
    NewBatch(s, w.memory, payments, asOf);
    var q := Absorb(s, w.memory, es, asOf).0;
    ProcessIs(s, w, asOf, pending, es);
    PersistIs(s, w.(memory := q, memoryLog := w.memoryLog + Taken(s, w.memory.aggregate, es),
                    phase := Persisting(pending)));
  }

  lemma PersistIs(s: Settings, w: World)
    requires w.phase.Persisting?
    ensures Step(s, w, Persist) == w.(memory := Settle(s, w.memory), disk := Some(Checkpoint(s, Settle(s, w.memory))),
                                      diskLog := w.memoryLog, phase := Marking(w.phase.pending))
  {
  }

  lemma ProcessAll(s: Settings, w: World, asOf: int)
    requires ReadyToProcess(w)
    ensures Reachable(s, w, Processed(s, w, asOf))
  {
    var next := Step(s, w, Process(asOf));
    LeadsOne(s, w, Process(asOf));
    if NewPayments(w.memory.ids, Events(w.stream, w.phase.pending)) == [] {
      NothingNewSteps(s, w, asOf);
    } else {
      NewSteps(s, w, asOf);
      LeadsOne(s, next, Persist);
      LeadsOn(s, w, [Process(asOf)], next, [Persist], Step(s, next, Persist));
    }
  }

  /** What a pass over the messages without a crash makes of the world. */
  ghost function Consumed(s: Settings, w: World, messages: seq<nat>, asOf: int): World
    requires w.phase.Idle? && Fits(w.stream, messages)
  {
    var scanned := Scanned(w.(phase := Scanning(messages, [])));
    if scanned.phase.pending == [] then scanned.(phase := Idle) else Marked(Processed(s, scanned, asOf))
  }

  /** A pass is a run of the delivery steps: a claim, scans, processing and persisting, then
      marking and acknowledging one message after the other. */
  lemma ConsumingIsSteps(s: Settings, w: World, messages: seq<nat>, asOf: int)
    requires Enabled(w, Claim(messages))
    ensures Reachable(s, w, Consumed(s, w, messages, asOf))
  {
    var claimed := Step(s, w, Claim(messages));
    var scanned := Scanned(claimed);
    LeadsOne(s, w, Claim(messages));
    ScanAll(s, claimed);
    ReachableOn(s, w, claimed, scanned);
    if scanned.phase.pending == [] {
      LeadsOne(s, scanned, Process(asOf));
      ReachableOn(s, w, scanned, Consumed(s, w, messages, asOf));
    } else {
      var processed := Processed(s, scanned, asOf);
      ProcessAll(s, scanned, asOf);
      ReachableOn(s, w, scanned, processed);
      MarkAll(s, processed);
      ReachableOn(s, w, processed, Marked(processed));
    }
  }

  lemma ReachableOn(s: Settings, w: World, v: World, u: World)
    requires Reachable(s, w, v) && Reachable(s, v, u)
    ensures Reachable(s, w, u)
  {
    var run :| Leads(s, w, run, v);
    var more :| Leads(s, v, more, u);
    LeadsOn(s, w, run, v, more, u);
  }

  // ---- the object ---------------------------------------------------------------

  class RedisStreamConsumer {
    const runtime: RuntimePipeline.Runtime
    var dedupe: set<string>
    var acked: set<nat>

    constructor (runtime: RuntimePipeline.Runtime)
      ensures this.runtime == runtime && dedupe == {} && acked == {}
    {
      this.runtime := runtime;
      dedupe, acked := {}, {};
    }

    /** Acknowledges the messages already marked and returns the others. */
    method ScanMessages(stream: seq<PaymentEvent>, messages: seq<nat>) returns (pending: seq<nat>)
      requires Fits(stream, messages)
      modifies this`acked
      ensures pending == Unmarked(stream, dedupe, messages)
      ensures acked == old(acked) + Skipped(stream, dedupe, messages)
    {
      pending := [];
      for i := 0 to |messages|
        invariant pending + Unmarked(stream, dedupe, messages[i..]) == Unmarked(stream, dedupe, messages)
        invariant acked + Skipped(stream, dedupe, messages[i..]) == old(acked) + Skipped(stream, dedupe, messages)
      {
        ScanNext(stream, dedupe, messages, i);
        if stream[messages[i]].id in dedupe {
          acked := acked + {messages[i]};
        } else {
          pending := pending + [messages[i]];
        }
      }
    }

    /** Marks and acknowledges the messages one after the other. */
    method MarkMessages(stream: seq<PaymentEvent>, pending: seq<nat>)
      requires Fits(stream, pending)
      modifies this
      ensures dedupe == old(dedupe) + Ids(stream, pending) && acked == old(acked) + Members(pending)
    {
      for i := 0 to |pending|
        invariant dedupe + Ids(stream, pending[i..]) == old(dedupe) + Ids(stream, pending)
        invariant acked + Members(pending[i..]) == old(acked) + Members(pending)
      {
        IdsNext(stream, pending, i);
        dedupe := dedupe + {stream[pending[i]].id};
        acked := acked + {pending[i]};
      }
    }

    /** One pass over the delivered messages. */
    method ConsumeOnce(stream: seq<PaymentEvent>, messages: seq<nat>, asOf: int) returns (count: nat)
      requires Fits(stream, messages) && runtime.Valid() && runtime.StoreFits()
      modifies this, runtime, runtime.aggregator, runtime.lifecycle, runtime.store
      ensures runtime.Valid() && runtime.StoreFits()
      ensures var pending := Unmarked(stream, old(dedupe), messages);
        var (after, out) := ProcessBatch(runtime.settings, old(runtime.Value()), Events(stream, pending), asOf);
        && count == |pending|
        && runtime.Value() == (if pending == [] then old(runtime.Value()) else after)
        && runtime.store.payload == (if pending == [] || out.None? then old(runtime.store.payload)
                                     else Some(Checkpoint(runtime.settings, after)))
        && dedupe == old(dedupe) + Ids(stream, pending)
        && acked == old(acked) + Skipped(stream, old(dedupe), messages) + Members(pending)
    {
      var pending := ScanMessages(stream, messages);
      if pending != [] {
        var _ := runtime.ProcessBatch(Events(stream, pending), asOf);
      }
      MarkMessages(stream, pending);
      count := |pending|;
    }
  }
}
