/** Live updates to one subscriber: a bounded queue that drops its oldest event, and a
    client that asks for everything again when it sees a gap in the sequence. */
module LiveUpdates {
  import opened Lists
  import opened Options

  /** The envelope's sequence does not follow the last one seen. */
  predicate Gap(last: nat, n: nat) { last > 0 && n != last + 1 }

  /** Puts into a queue of the given bound, dropping the oldest when it is full. */
  function Pushed<T>(queue: seq<T>, bound: nat, x: T): seq<T>
    requires bound >= 1
  {
    (if |queue| >= bound then queue[1..] else queue) + [x]
  }

  /** Opened: the client's socket is open, and the server has not subscribed it yet. */
  datatype Phase = Closed | Opened | Live(queue: seq<nat>)

  /** published: the numbers of the events in the order they were enqueued; delivered: which
      of them, by position, were delivered; refreshed: how many precede the last "all"
      invalidation; first: the position of the one delivered first. */
  datatype World = World(
    published: seq<nat>, phase: Phase, last: nat, delivered: set<nat>, refreshed: nat, first: Option<nat>)

  const START := World([], Closed, 0, {}, 0, None)

  datatype Action = Enqueue(n: nat) | Deliver | Disconnect | Open | Subscribe

  predicate Enabled(w: World, a: Action) {
    match a
    case Enqueue(n) => n >= 1
    case Deliver => w.phase.Live? && w.phase.queue != [] && |w.phase.queue| <= |w.published|
    case Disconnect => !w.phase.Closed?
    case Open => w.phase.Closed?
    case Subscribe => w.phase.Opened?
  }

  function Step(bound: nat, w: World, a: Action): World
    requires bound >= 1 && Enabled(w, a)
  {
    match a
    case Enqueue(n) =>
      w.(published := w.published + [n],
         phase := if w.phase.Live? then Live(Pushed(w.phase.queue, bound, n)) else w.phase)
    case Deliver =>
      var queue := w.phase.queue;
      w.(phase := Live(queue[1..]), last := queue[0], delivered := w.delivered + {|w.published| - |queue|},
         refreshed := if Gap(w.last, queue[0]) then |w.published| else w.refreshed,
         first := if w.first.Some? then w.first else Some(|w.published| - |queue|))
    case Disconnect => w.(phase := Closed)
    case Open => w.(phase := Opened, refreshed := if w.last > 0 then |w.published| else w.refreshed)
    case Subscribe => w.(phase := Live([]))
  }

  predicate Covered(w: World, i: nat)
    requires i < |w.published|
  {
    i in w.delivered || i < w.refreshed
  }

  /** With nothing left in the queue, every event since the first delivered one was
      delivered, or was followed by an "all" invalidation. */
  predicate NoSilentGap(w: World) {
    w.phase == Live([]) && w.first.Some? ==>
      forall i :: w.first.value <= i < |w.published| ==> Covered(w, i)
  }

  // ---- runs ---------------------------------------------------------------------

  predicate Possible(bound: nat, run: seq<Action>)
    requires bound >= 1
    decreases |run|, 0
  {
    run == [] || (Possible(bound, Front(run)) && Enabled(After(bound, Front(run)), Last(run)))
  }

  function After(bound: nat, run: seq<Action>): World
    requires bound >= 1 && Possible(bound, run)
    decreases |run|, 1
  {
    if run == [] then START else Step(bound, After(bound, Front(run)), Last(run))
  }

  /** Events are enqueued in sequence order, and none between a client's opening and its
      subscription. */
  predicate Orderly(w: World, a: Action) {
    a.Enqueue? ==> (w.published != [] ==> a.n > Last(w.published)) && !w.phase.Opened?
  }

  predicate AllOrderly(bound: nat, run: seq<Action>)
    requires bound >= 1 && Possible(bound, run)
    decreases |run|
  {
    run == [] || (AllOrderly(bound, Front(run)) && Orderly(After(bound, Front(run)), Last(run)))
  }

  predicate Increasing(ns: seq<nat>) {
    forall i, j :: 0 <= i < j < |ns| ==> ns[i] < ns[j]
  }

  /** Missed, and not noticed yet: the next delivery will. */
  predicate Pending(w: World, i: nat)
    requires i < |w.published|
  {
    w.phase.Live? && w.phase.queue != [] && w.published[i] > w.last
  }

  /** Before the queue every event is covered, or its absence is about to be noticed. */
  predicate Accounted(w: World, upTo: nat) {
    && upTo <= |w.published|
    && forall i :: (if w.first.Some? then w.first.value else upTo) <= i < upTo ==> Covered(w, i) || Pending(w, i)
  }

  predicate QueueFits(w: World, queue: seq<nat>) {
    && |queue| <= |w.published| && queue == w.published[|w.published|-|queue|..]
    && (forall k :: 0 <= k < |queue| ==> queue[k] > w.last)
    && Accounted(w, |w.published| - |queue|)
  }

  predicate History(w: World) {
    && Increasing(w.published) && (forall i :: 0 <= i < |w.published| ==> w.published[i] >= 1)
    && (w.last > 0 <==> w.first.Some?) && (w.last > 0 ==> w.last in w.published)
    && (w.first.Some? ==> w.first.value < |w.published|)
    && (forall i :: i in w.delivered ==> i < |w.published|)
    && w.refreshed <= |w.published|
  }

  predicate Invariant(w: World) {
    History(w) &&
    match w.phase
    case Closed => true
    case Opened => w.last > 0 ==> w.refreshed == |w.published|
    case Live(queue) => QueueFits(w, queue)
  }

  // ---- the invariant ------------------------------------------------------------

  lemma EnqueueHistory(w: World, n: nat)
    requires History(w) && n >= 1 && (w.published != [] ==> n > Last(w.published))
    ensures History(w.(published := w.published + [n]))
    ensures w.last < n
  {
    if w.last > 0 {
      var i :| 0 <= i < |w.published| && w.published[i] == w.last;
    }
  }

  lemma EnqueueKeeps(bound: nat, w: World, n: nat)
    requires bound >= 1 && Invariant(w) && Orderly(w, Enqueue(n)) && n >= 1
    ensures Invariant(Step(bound, w, Enqueue(n)))
  {
    EnqueueHistory(w, n);
    if w.phase.Live? {
      var w', queue := Step(bound, w, Enqueue(n)), w.phase.queue;
      var upTo, upTo' := |w.published| - |queue|, |w'.published| - |w'.phase.queue|;
      assert upTo' == if |queue| >= bound then upTo + 1 else upTo;
      forall i | (if w'.first.Some? then w'.first.value else upTo') <= i < upTo'
        ensures Covered(w', i) || Pending(w', i)
      {
        assert w'.published[i] == w.published[i];
        if i < upTo {
          assert Covered(w, i) || Pending(w, i);
        } else {
          assert w.published[i] == queue[0];
        }
      }
    }
  }

  lemma DeliverKeeps(bound: nat, w: World)
    requires bound >= 1 && Invariant(w) && Enabled(w, Deliver)
    ensures Invariant(Step(bound, w, Deliver))
  {
    var w', queue := Step(bound, w, Deliver), w.phase.queue;
    var upTo := |w.published| - |queue|;
    assert queue[0] == w.published[upTo] && queue[0] in w.published;
    forall i | w'.first.value <= i < upTo + 1 ensures Covered(w', i) || Pending(w', i) {
      if i < upTo {
        assert Covered(w, i) || Pending(w, i);
        assert w.published[i] < w.published[upTo];
      }
    }
    forall k | 0 <= k < |queue[1..]| ensures queue[1..][k] > queue[0] {
      assert queue[1..][k] == w.published[upTo + 1 + k];
    }
  }

  lemma StepKeeps(bound: nat, w: World, a: Action)
    requires bound >= 1 && Invariant(w) && Enabled(w, a) && Orderly(w, a)
    ensures Invariant(Step(bound, w, a))
  {
    match a
    case Enqueue(n) => EnqueueKeeps(bound, w, n);
    case Deliver => DeliverKeeps(bound, w);
    case _ =>
  }

  lemma {:induction false} InvariantAlways(bound: nat, run: seq<Action>)
    requires bound >= 1 && Possible(bound, run) && AllOrderly(bound, run)
    ensures Invariant(After(bound, run))
    decreases |run|
  {
    if run != [] {
      InvariantAlways(bound, Front(run));
      StepKeeps(bound, After(bound, Front(run)), Last(run));
    }
  }

  /** However events are published, dropped and delivered and however often the client
      reconnects, no gap stays silent. */
  lemma NeverSilent(bound: nat, run: seq<Action>)
    requires bound >= 1 && Possible(bound, run) && AllOrderly(bound, run)
    ensures NoSilentGap(After(bound, run))
  {
    InvariantAlways(bound, run);
    var w := After(bound, run);
    if w.phase == Live([]) && w.first.Some? {
      forall i | w.first.value <= i < |w.published| ensures Covered(w, i) {
        assert Covered(w, i) || Pending(w, i);
      }
    }
  }

  // ---- why both conditions are needed -------------------------------------------

  function Enqueued(w: World, ns: seq<nat>): World {
    w.(published := w.published + ns)
  }

  /** Events published between the opening and the subscription are never told of: the
      connection starts without a silent gap exactly when there are none. */
  lemma OpeningIsSilentIff(bound: nat, w: World, ns: seq<nat>)
    requires bound >= 1 && Invariant(w) && w.phase.Opened? && w.last > 0
    requires Increasing(w.published + ns)
    ensures NoSilentGap(Step(bound, Enqueued(w, ns), Subscribe)) <==> ns == []
  {
    var w', k := Step(bound, Enqueued(w, ns), Subscribe), |w.published|;
    if ns != [] {
      assert !Covered(w', k);
    }
  }

  // ---- out of order -------------------------------------------------------------

  /** The n numbers after last. */
  function Following(last: nat, n: nat): seq<nat> {
    seq(n, i requires 0 <= i < n => last + 1 + i)
  }

  /** The events enqueued one after the other. */
  function Sent(bound: nat, w: World, ns: seq<nat>): (v: World)
    requires bound >= 1 && forall i :: 0 <= i < |ns| ==> ns[i] >= 1
    ensures w.phase.Live? && |w.phase.queue| <= |w.published| ==> v.phase.Live? && |v.phase.queue| <= |v.published|
  {
    if ns == [] then w else Step(bound, Sent(bound, w, Front(ns)), Enqueue(Last(ns)))
  }

  /** Everything in the queue delivered. */
  function Drained(bound: nat, w: World): World
    requires bound >= 1 && w.phase.Live? && |w.phase.queue| <= |w.published|
    decreases if w.phase.Live? then |w.phase.queue| else 0
  {
    if w.phase.queue == [] then w else Drained(bound, Step(bound, w, Deliver))
  }

  function Newest<T>(xs: seq<T>, bound: nat): seq<T> {
    if |xs| <= bound then xs else xs[|xs| - bound..]
  }

  lemma {:induction false} SentQueue(bound: nat, w: World, ns: seq<nat>)
    requires bound >= 1 && forall i :: 0 <= i < |ns| ==> ns[i] >= 1
    requires w.phase.Live? && |w.phase.queue| <= bound
    ensures Sent(bound, w, ns) == w.(published := w.published + ns, phase := Live(Newest(w.phase.queue + ns, bound)))
  {
    var queue := w.phase.queue;
    if ns == [] {
      assert w.published + [] == w.published && queue + [] == queue;
    } else {
      SentQueue(bound, w, Front(ns));
      assert ns == Front(ns) + [Last(ns)];
      assert queue + ns == (queue + Front(ns)) + [Last(ns)];
      assert w.published + ns == (w.published + Front(ns)) + [Last(ns)];
      assert Pushed(Newest(queue + Front(ns), bound), bound, Last(ns)) == Newest(queue + ns, bound);
    }
  }

  /** The last n of the positions below count. */
  function Newly(count: nat, n: nat): (r: set<nat>)
    requires n <= count
    ensures forall i :: i in r <==> count - n <= i < count
  {
    if n == 0 then {} else {count - n} + Newly(count, n - 1)
  }

  lemma {:induction false} DrainedAll(bound: nat, w: World)
    requires bound >= 1 && w.phase.Live? && |w.phase.queue| <= |w.published| && w.first.Some?
    ensures var v := Drained(bound, w);
      && v.phase == Live([]) && v.published == w.published && v.first == w.first
      && v.delivered == w.delivered + Newly(|w.published|, |w.phase.queue|)
      && (v.refreshed == w.refreshed || v.refreshed == |w.published|)
      && (w.phase.queue != [] && Gap(w.last, w.phase.queue[0]) ==> v.refreshed == |w.published|)
      && (w.phase.queue == Following(w.last, |w.phase.queue|) ==> v.refreshed == w.refreshed)
    decreases if w.phase.Live? then |w.phase.queue| else 0
  {
    var queue, count := w.phase.queue, |w.published|;
    if queue != [] {
      DrainedAll(bound, Step(bound, w, Deliver));
      if queue == Following(w.last, |queue|) {
        assert queue[1..] == Following(queue[0], |queue| - 1);
      }
    }
  }

  /** What comes of a burst of events while the queue is empty, all delivered after it:
      the last of them that fit the queue are delivered, and the others noticed exactly when
      the first of those is no successor of the last number seen. */
  lemma BurstOutcome(bound: nat, w: World, ns: seq<nat>)
    requires bound >= 1 && w.phase == Live([]) && w.last > 0 && w.first.Some?
    requires forall i :: 0 <= i < |ns| ==> ns[i] >= 1
    ensures var v, queue := Drained(bound, Sent(bound, w, ns)), Newest(ns, bound);
      && v.phase == Live([]) && v.first == w.first && v.published == w.published + ns
      && v.delivered == w.delivered + Newly(|v.published|, |queue|)
      && (v.refreshed == w.refreshed || v.refreshed == |v.published|)
      && (queue != [] && Gap(w.last, queue[0]) ==> v.refreshed == |v.published|)
      && (queue == Following(w.last, |queue|) ==> v.refreshed == w.refreshed)
  {
    SentQueue(bound, w, ns);
    assert [] + ns == ns;
    DrainedAll(bound, Sent(bound, w, ns));
  }

  /** A burst with nothing dropped leaves no silent gap, whatever its numbers. */
  lemma BurstDelivered(bound: nat, w: World, ns: seq<nat>)
    requires bound >= 1 && Invariant(w) && w.phase == Live([]) && w.last > 0 && |ns| <= bound
    requires forall i :: 0 <= i < |ns| ==> ns[i] >= 1
    ensures NoSilentGap(Drained(bound, Sent(bound, w, ns)))
  {
    var v := Drained(bound, Sent(bound, w, ns));
    BurstOutcome(bound, w, ns);
    forall i | v.first.value <= i < |v.published| ensures Covered(v, i) {
      if i < |w.published| {
        assert Covered(w, i) || Pending(w, i);
      }
    }
  }

  /** A burst of which some were dropped leaves a silent gap when nothing gives it away. */
  lemma BurstMissed(bound: nat, w: World, ns: seq<nat>)
    requires bound >= 1 && Invariant(w) && w.phase == Live([]) && w.last > 0 && |ns| > bound
    requires forall i :: 0 <= i < |ns| ==> ns[i] >= 1
    requires Newest(ns, bound) == Following(w.last, bound)
    ensures !NoSilentGap(Drained(bound, Sent(bound, w, ns)))
  {
    BurstOutcome(bound, w, ns);
    assert !Covered(Drained(bound, Sent(bound, w, ns)), |w.published|);
  }

  lemma StrayQueue(last: nat, stray: nat, m: nat, bound: nat)
    requires bound >= 1
    ensures var queue := Newest([stray] + Following(last, m), bound);
      && queue != []
      && (m < bound ==> queue[0] == stray)
      && (m == bound ==> queue == Following(last, m))
      && (m > bound ==> queue[0] == last + 1 + (m - bound))
  {
    var ns := [stray] + Following(last, m);
    assert m >= bound ==> forall i :: 0 <= i < bound ==> Newest(ns, bound)[i] == Following(last, m)[m - bound + i];
  }

  /** When an event is enqueued before its turn, or after it, and the next m in sequence
      follow: once all is delivered a gap stays silent exactly when those just fill the
      queue.  With fewer the event is delivered; with more the client sees a gap. */
  lemma OutOfOrderIsSilentIff(bound: nat, w: World, stray: nat, m: nat)
    requires bound >= 1 && Invariant(w) && w.phase == Live([]) && w.last > 0 && stray >= 1
    ensures NoSilentGap(Drained(bound, Sent(bound, w, [stray] + Following(w.last, m)))) <==> m != bound
  {
    var ns := [stray] + Following(w.last, m);
    StrayQueue(w.last, stray, m, bound);
    if m < bound {
      BurstDelivered(bound, w, ns);
    } else if m == bound {
      BurstMissed(bound, w, ns);
    } else {
      BurstOutcome(bound, w, ns);
    }
  }

  /** A reset starts the numbers again at one while the client keeps the last it has seen.
      Of n events published before it reads on, some stay silently missing exactly when the
      queue dropped as many as the client had seen. */
  lemma RenumberedIsSilentIff(bound: nat, w: World, n: nat)
    requires bound >= 1 && Invariant(w) && w.phase == Live([]) && w.last > 0
    ensures NoSilentGap(Drained(bound, Sent(bound, w, Following(0, n)))) <==> n != bound + w.last
  {
    var ns := Following(0, n);
    if n <= bound {
      BurstDelivered(bound, w, ns);
    } else {
      var queue := Newest(ns, bound);
      assert queue == Following(n - bound, bound);
      if n == bound + w.last {
        BurstMissed(bound, w, ns);
      } else {
        assert queue[0] == n - bound + 1;
        BurstOutcome(bound, w, ns);
      }
    }
  }
}
