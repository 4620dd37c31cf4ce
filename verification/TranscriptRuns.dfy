/** Runs of the transcript operations: what every reachable store keeps, and what a retry
    finds. */
module TranscriptRuns {
  import opened Lists
  import opened Options
  import opened Transcript

  datatype Thread = Thread(id: string, package: Option<(string, int)>)

  /** The threads by incident, the messages, and the responses recorded by command scope
      and request id. */
  datatype Store = Store(threads: map<string, Thread>, messages: seq<Message>, commands: map<(string, string), string>)

  const EMPTY := Store(map[], [], map[])

  predicate Owned(st: Store, thread: string, incident: string) {
    incident in st.threads && st.threads[incident].id == thread
  }

  datatype Request = Request(
    scope: string, requestId: string, transition: Option<Draft>, user: Draft, package: (string, int), response: string)

  function GetOrCreate(st: Store, incident: string, newId: string): (Store, Thread) {
    if incident in st.threads then (st, st.threads[incident])
    else (st.(threads := st.threads[incident := Thread(newId, None)]), Thread(newId, None))
  }

  function AppendMessage(st: Store, thread: string, incident: string, d: Draft): (Store, Reply<Message>) {
    if !Owned(st, thread, incident) then (st, Raised(NotOwned))
    else
      var (ms, r) := Append(st.messages, thread, incident, d);
      (st.(messages := ms), r)
  }

  function UpsertResponse(st: Store, thread: string, incident: string, d: Draft): (Store, Reply<Message>) {
    if !Owned(st, thread, incident) then (st, Raised(NotOwned))
    else
      var (ms, m) := Upsert(st.messages, thread, incident, d);
      (st.(messages := ms), Ok(m))
  }

  function AcceptRequest(st: Store, thread: string, incident: string, q: Request): (Store, Reply<string>) {
    if !Owned(st, thread, incident) then (st, Raised(NotOwned))
    else if (q.scope, q.requestId) in st.commands then (st, Ok(st.commands[(q.scope, q.requestId)]))
    else
      (Store(st.threads[incident := Thread(thread, Some(q.package))],
             AcceptMessages(st.messages, thread, incident, q.transition, q.user),
             st.commands[(q.scope, q.requestId) := q.response]),
       Ok(q.response))
  }

  // ---- runs -------------------------------------------------------------------

  datatype Op =
    | Create(incident: string, newId: string)
    | AppendOp(thread: string, incident: string, d: Draft)
    | UpsertOp(thread: string, incident: string, d: Draft)
    | AcceptOp(thread: string, incident: string, q: Request)

  function Apply(st: Store, op: Op): Store {
    match op
    case Create(incident, newId) => GetOrCreate(st, incident, newId).0
    case AppendOp(thread, incident, d) => AppendMessage(st, thread, incident, d).0
    case UpsertOp(thread, incident, d) => UpsertResponse(st, thread, incident, d).0
    case AcceptOp(thread, incident, q) => AcceptRequest(st, thread, incident, q).0
  }

  function After(st: Store, run: seq<Op>): Store {
    if run == [] then st else Apply(After(st, Front(run)), Last(run))
  }

  /** Only responses are answers, and a first answer has an id of its own. */
  predicate Fitting(st: Store, op: Op) {
    match op
    case Create(_, _) => true
    case AppendOp(_, _, d) => !d.role.Assistant?
    case UpsertOp(thread, _, d) =>
      || First(st.messages, AnswersIn(thread, d.interaction)) < |st.messages|
      || First(st.messages, HasId(d.id)) == |st.messages|
    case AcceptOp(_, _, q) => !q.user.role.Assistant? && (q.transition.Some? ==> !q.transition.value.role.Assistant?)
  }

  predicate AllFitting(st: Store, run: seq<Op>) {
    run == [] || (AllFitting(st, Front(run)) && Fitting(After(st, Front(run)), Last(run)))
  }

  ghost predicate Invariant(st: Store) {
    AllDense(st.messages) && Apart(st.messages)
  }

  predicate SameButBody(m: Message, n: Message) { n.(body := m.body) == m && (!m.role.Assistant? ==> n == m) }

  /** Every message stays as it is and where it is, but for the body of an answer. */
  predicate Grows(ms: seq<Message>, ns: seq<Message>) {
    |ms| <= |ns| && forall i :: 0 <= i < |ms| ==> SameButBody(ms[i], ns[i])
  }

  predicate Later(st: Store, st': Store) {
    && Grows(st.messages, st'.messages)
    && (forall k :: k in st.commands ==> k in st'.commands && st'.commands[k] == st.commands[k])
    && (forall i :: i in st.threads ==> i in st'.threads && st'.threads[i].id == st.threads[i].id)
  }

  lemma GrowsOn(a: seq<Message>, b: seq<Message>, c: seq<Message>)
    requires Grows(a, b) && Grows(b, c)
    ensures Grows(a, c)
  {
    forall i | 0 <= i < |a| ensures SameButBody(a[i], c[i]) {
      assert SameButBody(a[i], b[i]) && SameButBody(b[i], c[i]);
    }
  }

  lemma SnocGrows(ms: seq<Message>, m: Message)
    ensures Grows(ms, ms + [m])
  {
  }

  lemma NewDiffers(ms: seq<Message>, m: Message, i: nat)
    requires i < |ms| && First(ms, HasId(m.id)) == |ms|
    requires m.role.Assistant? ==> First(ms, AnswersIn(m.thread, m.interaction)) == |ms|
    ensures Differ(ms[i], m)
  {
    assert !HasId(m.id)(ms[i]);
    assert m.role.Assistant? ==> !AnswersIn(m.thread, m.interaction)(ms[i]);
  }

  lemma SnocApart(ms: seq<Message>, m: Message)
    requires Apart(ms) && First(ms, HasId(m.id)) == |ms|
    requires m.role.Assistant? ==> First(ms, AnswersIn(m.thread, m.interaction)) == |ms|
    ensures Apart(ms + [m]) && Grows(ms, ms + [m])
  {
    SnocGrows(ms, m);
    forall i | 0 <= i < |ms| ensures Differ(ms[i], m) {
      NewDiffers(ms, m, i);
    }
  }

  lemma InsertNewKeeps(ms: seq<Message>, thread: string, incident: string, d: Draft)
    requires AllDense(ms) && Apart(ms) && !d.role.Assistant?
    ensures var ns := InsertNew(ms, thread, incident, d); AllDense(ns) && Apart(ns) && Grows(ms, ns)
  {
    AppendKeepsDense(ms, thread, incident, d);
    if First(ms, HasId(d.id)) == |ms| {
      SnocApart(ms, Stamp(ms, thread, incident, d));
    }
  }

  lemma BodyApart(ms: seq<Message>, i: nat, m: Message)
    requires Apart(ms) && i < |ms| && SameButBody(ms[i], m)
    ensures Apart(ms[i := m]) && Grows(ms, ms[i := m])
  {
    var ns := ms[i := m];
    forall j, k | 0 <= j < k < |ns| ensures Differ(ns[j], ns[k]) {
      assert Differ(ms[j], ms[k]);
    }
  }

  lemma AcceptKeeps(ms: seq<Message>, thread: string, incident: string, transition: Option<Draft>, user: Draft)
    requires AllDense(ms) && Apart(ms)
    requires !user.role.Assistant? && (transition.Some? ==> !transition.value.role.Assistant?)
    ensures var ns := AcceptMessages(ms, thread, incident, transition, user); AllDense(ns) && Apart(ns) && Grows(ms, ns)
  {
    var noted := ms;
    if transition.Some? {
      InsertNewKeeps(ms, thread, incident, transition.value);
      noted := InsertNew(ms, thread, incident, transition.value);
    }
    InsertNewKeeps(noted, thread, incident, user);
    GrowsOn(ms, noted, InsertNew(noted, thread, incident, user));
  }

  lemma UpsertKeeps(ms: seq<Message>, thread: string, incident: string, d: Draft)
    requires AllDense(ms) && Apart(ms)
    requires First(ms, AnswersIn(thread, d.interaction)) < |ms| || First(ms, HasId(d.id)) == |ms|
    ensures var ns := Upsert(ms, thread, incident, d).0; AllDense(ns) && Apart(ns) && Grows(ms, ns)
  {
    UpsertDenseIff(ms, thread, incident, d);
    var i := First(ms, AnswersIn(thread, d.interaction));
    if i < |ms| {
      BodyApart(ms, i, ms[i].(body := d.body));
    } else {
      SnocApart(ms, Stamp(ms, thread, incident, d).(role := Assistant));
    }
  }

  /** A step that changes the messages for grown ones, and may record a response. */
  lemma MessagesKeep(st: Store, st': Store)
    requires st'.threads == st.threads && st'.commands == st.commands
    requires AllDense(st'.messages) && Apart(st'.messages) && Grows(st.messages, st'.messages)
    ensures Invariant(st') && Later(st, st')
  {
  }

  lemma NothingHappens(st: Store)
    requires Invariant(st)
    ensures Later(st, st)
  {
  }

  lemma CreateStep(st: Store, incident: string, newId: string)
    requires Invariant(st)
    ensures var st' := GetOrCreate(st, incident, newId).0; Invariant(st') && Later(st, st')
  {
    NothingHappens(st);
  }

  lemma AppendStep(st: Store, thread: string, incident: string, d: Draft)
    requires Invariant(st) && !d.role.Assistant?
    ensures var st' := AppendMessage(st, thread, incident, d).0; Invariant(st') && Later(st, st')
  {
    NothingHappens(st);
    var st' := AppendMessage(st, thread, incident, d).0;
    if st' != st {
      InsertNewKeeps(st.messages, thread, incident, d);
      MessagesKeep(st, st');
    }
  }

  lemma UpsertStep(st: Store, thread: string, incident: string, d: Draft)
    requires Invariant(st) && Fitting(st, UpsertOp(thread, incident, d))
    ensures var st' := UpsertResponse(st, thread, incident, d).0; Invariant(st') && Later(st, st')
  {
    NothingHappens(st);
    var st' := UpsertResponse(st, thread, incident, d).0;
    if st' != st {
      UpsertKeeps(st.messages, thread, incident, d);
      MessagesKeep(st, st');
    }
  }

  lemma AcceptStep(st: Store, thread: string, incident: string, q: Request)
    requires Invariant(st) && Fitting(st, AcceptOp(thread, incident, q))
    ensures var st' := AcceptRequest(st, thread, incident, q).0; Invariant(st') && Later(st, st')
  {
    NothingHappens(st);
    AcceptKeeps(st.messages, thread, incident, q.transition, q.user);
  }

  lemma StepKeeps(st: Store, op: Op)
    requires Invariant(st) && Fitting(st, op)
    ensures Invariant(Apply(st, op)) && Later(st, Apply(st, op))
  {
    match op
    case Create(incident, newId) => CreateStep(st, incident, newId);
    case AppendOp(thread, incident, d) => AppendStep(st, thread, incident, d);
    case UpsertOp(thread, incident, d) => UpsertStep(st, thread, incident, d);
    case AcceptOp(thread, incident, q) => AcceptStep(st, thread, incident, q);
  }

  /** Each thread stays numbered 1 to n and each interaction has at most one answer; and
      nothing recorded ever moves or goes. */
  lemma {:induction false} RunKeeps(st: Store, run: seq<Op>)
    requires Invariant(st) && AllFitting(st, run)
    ensures Invariant(After(st, run)) && Later(st, After(st, run))
  {
    if run != [] {
      RunKeeps(st, Front(run));
      StepKeeps(After(st, Front(run)), Last(run));
      LaterOn(st, After(st, Front(run)), After(st, run));
    }
  }

  lemma LaterOn(a: Store, b: Store, c: Store)
    requires Later(a, b) && Later(b, c)
    ensures Later(a, c)
  {
    GrowsOn(a.messages, b.messages, c.messages);
  }

  lemma EmptyInvariant()
    ensures Invariant(EMPTY)
  {
    forall thread ensures Dense([], thread) {
      assert Numbers([], thread) == UpTo(0);
    }
  }

  /** So it is in every store reachable from the empty one. */
  lemma ReachableDense(run: seq<Op>)
    requires AllFitting(EMPTY, run)
    ensures Invariant(After(EMPTY, run))
  {
    EmptyInvariant();
    RunKeeps(EMPTY, run);
  }

  // ---- retries ----------------------------------------------------------------

  /** An answer keeps its id and its number through every retry. */
  lemma AnswerSurvives(st: Store, run: seq<Op>, thread: string, incident: string, d: Draft, again: Draft)
    requires Invariant(st) && Owned(st, thread, incident) && Fitting(st, UpsertOp(thread, incident, d))
    requires AllFitting(UpsertResponse(st, thread, incident, d).0, run) && again.interaction == d.interaction
    ensures var (st1, first) := UpsertResponse(st, thread, incident, d);
      var (st2, second) := UpsertResponse(After(st1, run), thread, incident, again);
      && first.Ok? && second.Ok?
      && second.value == first.value.(body := again.body)
      && |st2.messages| == |After(st1, run).messages|
  {
    StepKeeps(st, UpsertOp(thread, incident, d));
    var (st1, first) := UpsertResponse(st, thread, incident, d);
    RunKeeps(st1, run);
    var later := After(st1, run);
    var i := AnswerIndex(st, thread, incident, d);
    FirstAnswer(st1.messages, later.messages, i, thread, d.interaction);
  }

  /** Where the answer is after the upsert. */
  lemma AnswerIndex(st: Store, thread: string, incident: string, d: Draft) returns (i: nat)
    requires Owned(st, thread, incident) && Fitting(st, UpsertOp(thread, incident, d))
    ensures var (st1, r) := UpsertResponse(st, thread, incident, d);
      r.Ok? && i < |st1.messages| && st1.messages[i] == r.value && AnswersIn(thread, d.interaction)(r.value)
  {
    i := First(st.messages, AnswersIn(thread, d.interaction));
  }

  lemma FirstAnswer(ms: seq<Message>, ns: seq<Message>, i: nat, thread: string, interaction: Option<string>)
    requires Grows(ms, ns) && i < |ms| && AnswersIn(thread, interaction)(ms[i]) && Apart(ns)
    ensures First(ns, AnswersIn(thread, interaction)) == i && SameButBody(ms[i], ns[i])
  {
    assert SameButBody(ms[i], ns[i]);
    var j := First(ns, AnswersIn(thread, interaction));
    assert AnswersIn(thread, interaction)(ns[i]);
    assert j < i ==> Differ(ns[j], ns[i]);
  }

  /** A request accepted once gets the same response for ever, and repeating it changes
      nothing. */
  lemma ReacceptanceIsIdempotent(st: Store, run: seq<Op>, thread: string, incident: string, q: Request, again: Request)
    requires Invariant(st) && Owned(st, thread, incident) && Fitting(st, AcceptOp(thread, incident, q))
    requires AllFitting(AcceptRequest(st, thread, incident, q).0, run)
    requires again.scope == q.scope && again.requestId == q.requestId
    ensures var (st1, first) := AcceptRequest(st, thread, incident, q);
      AcceptRequest(After(st1, run), thread, incident, again) == (After(st1, run), first)
  {
    StepKeeps(st, AcceptOp(thread, incident, q));
    var (st1, first) := AcceptRequest(st, thread, incident, q);
    RunKeeps(st1, run);
    assert (q.scope, q.requestId) in st1.commands;
  }

  /** So does a message appended under a request id: later appends for that request return
      the message it first was, and change nothing. */
  lemma AppendIsIdempotent(st: Store, run: seq<Op>, thread: string, incident: string, d: Draft, again: Draft)
    requires Invariant(st) && Owned(st, thread, incident) && Fitting(st, AppendOp(thread, incident, d))
    requires AllFitting(AppendMessage(st, thread, incident, d).0, run)
    requires d.role.User? && d.requestId.Some? && again.requestId == d.requestId
    requires First(st.messages, HasId(d.id)) == |st.messages|
    ensures var (st1, first) := AppendMessage(st, thread, incident, d);
      var later := After(st1, run);
      var (st2, second) := AppendMessage(later, thread, incident, again);
      st2 == later && first.Ok? && second.Ok? && SameButBody(first.value, second.value)
  {
    StepKeeps(st, AppendOp(thread, incident, d));
    var st1 := AppendMessage(st, thread, incident, d).0;
    RunKeeps(st1, run);
    AppendedIsFirst(st.messages, thread, incident, d);
    FirstGrown(st1.messages, After(st1, run).messages, AsksIn(thread, d.requestId.value));
  }

  /** Appending for a request returns the first message for it. */
  lemma AppendedIsFirst(ms: seq<Message>, thread: string, incident: string, d: Draft)
    requires d.role.User? && d.requestId.Some? && First(ms, HasId(d.id)) == |ms|
    ensures var (ns, r) := Append(ms, thread, incident, d);
      var i := First(ns, AsksIn(thread, d.requestId.value));
      i < |ns| && r == Ok(ns[i])
  {
    var asks := AsksIn(thread, d.requestId.value);
    if First(ms, asks) == |ms| {
      var m := Stamp(ms, thread, incident, d);
      assert Front(ms + [m]) == ms && asks(m);
    }
  }

  lemma FirstGrown(ms: seq<Message>, ns: seq<Message>, p: Message -> bool)
    requires Grows(ms, ns) && First(ms, p) < |ms|
    requires forall m, n :: SameButBody(m, n) ==> (p(m) <==> p(n))
    ensures First(ns, p) == First(ms, p)
    ensures SameButBody(ms[First(ms, p)], ns[First(ms, p)])
  {
    var i := First(ms, p);
    assert SameButBody(ms[i], ns[i]);
    forall j | 0 <= j < i ensures !p(ns[j]) {
      assert SameButBody(ms[j], ns[j]);
    }
  }
}
