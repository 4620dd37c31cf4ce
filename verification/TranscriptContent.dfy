/** What a reader of the transcript finds later: what was handed in, and of an answer the
    latest body. */
module TranscriptContent {
  import opened Lists
  import opened Options
  import opened Transcript
  import opened TranscriptRuns
  import opened TranscriptPages

  /** The page of what comes after the number before begins with m. */
  predicate BeginsWith(st: Store, thread: string, incident: string, limit: int, m: Message) {
    var r := ListMessages(st, thread, incident, Some(m.sequence - 1), limit);
    r.Ok? && r.value.items != [] && r.value.items[0] == m
  }

  ghost predicate ListedAt(st: Store, thread: string, incident: string, m: Message) {
    m.sequence >= 1 && forall limit :: 1 <= limit <= 100 ==> BeginsWith(st, thread, incident, limit, m)
  }

  lemma MemberInRange(ms: seq<Message>, thread: string, m: Message)
    requires Dense(ms, thread) && m in ms && m.thread == thread
    ensures 1 <= m.sequence <= Count(ms, thread)
  {
    var i :| 0 <= i < |ms| && ms[i] == m;
    MemberNumber(ms, thread, i);
    assert m.sequence in UpTo(Count(ms, thread));
  }

  lemma NumberedFirst(ms: seq<Message>, thread: string, after: int, m: Message)
    requires Numbered(ms, thread, after) && m in ms && m.sequence == after + 1
    ensures ms[0] == m
  {
    var k :| 0 <= k < |ms| && ms[k] == m;
  }

  lemma ListedHas(ms: seq<Message>, thread: string, after: nat, m: Message)
    requires Dense(ms, thread) && m in ms && m.thread == thread && m.sequence == after + 1
    ensures Numbered(Listed(ms, thread, after), thread, after) && m in Listed(ms, thread, after)
  {
    MemberInRange(ms, thread, m);
    ListedInTurn(ms, thread, after);
    ListedIff(ms, thread, after, m);
  }

  lemma ListedFirst(ms: seq<Message>, thread: string, after: nat, m: Message)
    requires Dense(ms, thread) && m in ms && m.thread == thread && m.sequence == after + 1
    ensures Listed(ms, thread, after) != [] && Listed(ms, thread, after)[0] == m
  {
    ListedHas(ms, thread, after, m);
    NumberedFirst(Listed(ms, thread, after), thread, after, m);
  }

  lemma FirstOfCut(all: seq<Message>, limit: int)
    requires limit >= 1 && all != []
    ensures (if |all| > limit then all[..limit] else all) != []
    ensures (if |all| > limit then all[..limit] else all)[0] == all[0]
  {
  }

  lemma PageBegins(ms: seq<Message>, thread: string, after: int, limit: int, m: Message)
    requires limit >= 1 && Listed(ms, thread, after) != [] && Listed(ms, thread, after)[0] == m
    ensures PageOf(ms, thread, after, limit).items != [] && PageOf(ms, thread, after, limit).items[0] == m
  {
    FirstOfCut(Listed(ms, thread, after), limit);
  }

  lemma PagesBegin(st: Store, thread: string, incident: string, limit: int, m: Message)
    requires Owned(st, thread, incident) && 1 <= limit <= 100
    requires var items := PageOf(st.messages, thread, m.sequence - 1, limit).items; items != [] && items[0] == m
    ensures BeginsWith(st, thread, incident, limit, m)
  {
  }

  lemma MemberListed(st: Store, thread: string, incident: string, m: Message)
    requires Invariant(st) && Owned(st, thread, incident) && m in st.messages && m.thread == thread
    ensures ListedAt(st, thread, incident, m)
  {
    assert Dense(st.messages, thread);
    MemberInRange(st.messages, thread, m);
    ListedFirst(st.messages, thread, m.sequence - 1, m);
    forall limit | 1 <= limit <= 100 ensures BeginsWith(st, thread, incident, limit, m) {
      PageBegins(st.messages, thread, m.sequence - 1, limit, m);
      PagesBegin(st, thread, incident, limit, m);
    }
  }

  /** The message that d becomes under a number. */
  function As(d: Draft, thread: string, incident: string, number: nat): Message {
    Message(d.id, thread, incident, number, d.role, d.requestId, d.interaction, d.body)
  }

  /** Neither the id nor the request has been seen. */
  predicate Fresh(ms: seq<Message>, thread: string, d: Draft) {
    forall m :: m in ms ==>
      && m.id != d.id
      && !(d.requestId.Some? && m.thread == thread && m.role.User? && m.requestId == d.requestId)
  }

  lemma NextNumber(ms: seq<Message>, thread: string, incident: string, d: Draft)
    requires AllDense(ms)
    ensures Stamp(ms, thread, incident, d)
      == As(d, thread, incident, Count(ms, thread) + 1)
  {
    assert Dense(ms, thread);
    HighestIsCount(ms, thread);
  }

  /** A message recorded with another role than that of an answer is listed unchanged ever after. */
  lemma RecordedIsListed(st: Store, run: seq<Op>, thread: string, incident: string, m: Message)
    requires Invariant(st) && Owned(st, thread, incident) && AllFitting(st, run)
    requires m in st.messages && m.thread == thread && !m.role.Assistant?
    ensures ListedAt(After(st, run), thread, incident, m)
  {
    RunKeeps(st, run);
    var i :| 0 <= i < |st.messages| && st.messages[i] == m;
    assert SameButBody(m, After(st, run).messages[i]);
    assert After(st, run).messages[i] in After(st, run).messages;
    MemberListed(After(st, run), thread, incident, m);
  }

  /** What is appended for the first time is listed as it was handed in, numbered next. */
  lemma AppendedIsListed(st: Store, run: seq<Op>, thread: string, incident: string, d: Draft)
    requires Invariant(st) && Owned(st, thread, incident) && Fitting(st, AppendOp(thread, incident, d))
    requires Fresh(st.messages, thread, d) && AllFitting(AppendMessage(st, thread, incident, d).0, run)
    ensures ListedAt(After(AppendMessage(st, thread, incident, d).0, run), thread, incident,
                     As(d, thread, incident, Count(st.messages, thread) + 1))
  {
    var st1 := AppendMessage(st, thread, incident, d).0;
    StepKeeps(st, AppendOp(thread, incident, d));
    NextNumber(st.messages, thread, incident, d);
    assert st1.messages == st.messages + [Stamp(st.messages, thread, incident, d)];
    RecordedIsListed(st1, run, thread, incident, Stamp(st.messages, thread, incident, d));
  }

  predicate NewId(ms: seq<Message>, d: Draft) { forall m :: m in ms ==> m.id != d.id }

  lemma InsertedNew(ms: seq<Message>, thread: string, incident: string, d: Draft)
    requires AllDense(ms) && NewId(ms, d)
    ensures InsertNew(ms, thread, incident, d) == ms
      + [As(d, thread, incident, Count(ms, thread) + 1)]
  {
    NextNumber(ms, thread, incident, d);
  }

  lemma CountSnoc(ms: seq<Message>, m: Message)
    ensures Count(ms + [m], m.thread) == Count(ms, m.thread) + 1
  {
    NumbersSnoc(ms, m, m.thread);
  }

  lemma TwoInserted(ms: seq<Message>, thread: string, incident: string, noted: Draft, user: Draft)
    requires AllDense(ms) && NewId(ms, noted) && NewId(ms, user) && noted.id != user.id
    ensures AcceptMessages(ms, thread, incident, Some(noted), user) == ms
      + [As(noted, thread, incident, Count(ms, thread) + 1), As(user, thread, incident, Count(ms, thread) + 2)]
  {
    AppendKeepsDense(ms, thread, incident, noted);
    InsertedNew(ms, thread, incident, noted);
    var mid := InsertNew(ms, thread, incident, noted);
    CountSnoc(ms, Last(mid));
    InsertedNew(mid, thread, incident, user);
  }

  /** A request accepted for the first time has its transition and its user message listed
      in turn, as they were handed in. */
  lemma AcceptedAreListed(st: Store, run: seq<Op>, thread: string, incident: string, q: Request, noted: Draft)
    requires Invariant(st) && Owned(st, thread, incident) && Fitting(st, AcceptOp(thread, incident, q))
    requires (q.scope, q.requestId) !in st.commands && q.transition == Some(noted)
    requires NewId(st.messages, noted) && NewId(st.messages, q.user) && noted.id != q.user.id
    requires AllFitting(AcceptRequest(st, thread, incident, q).0, run)
    ensures var n, later := Count(st.messages, thread), After(AcceptRequest(st, thread, incident, q).0, run);
      && ListedAt(later, thread, incident, As(noted, thread, incident, n + 1))
      && ListedAt(later, thread, incident, As(q.user, thread, incident, n + 2))
  {
    var st1, n := AcceptRequest(st, thread, incident, q).0, Count(st.messages, thread);
    StepKeeps(st, AcceptOp(thread, incident, q));
    TwoInserted(st.messages, thread, incident, noted, q.user);
    RecordedIsListed(st1, run, thread, incident, As(noted, thread, incident, n + 1));
    RecordedIsListed(st1, run, thread, incident, As(q.user, thread, incident, n + 2));
  }

  /** Without a transition the user message comes next. */
  lemma AcceptedIsListed(st: Store, run: seq<Op>, thread: string, incident: string, q: Request)
    requires Invariant(st) && Owned(st, thread, incident) && Fitting(st, AcceptOp(thread, incident, q))
    requires (q.scope, q.requestId) !in st.commands && q.transition.None? && NewId(st.messages, q.user)
    requires AllFitting(AcceptRequest(st, thread, incident, q).0, run)
    ensures ListedAt(After(AcceptRequest(st, thread, incident, q).0, run), thread, incident,
                     As(q.user, thread, incident, Count(st.messages, thread) + 1))
  {
    var st1 := AcceptRequest(st, thread, incident, q).0;
    StepKeeps(st, AcceptOp(thread, incident, q));
    InsertedNew(st.messages, thread, incident, q.user);
    RecordedIsListed(st1, run, thread, incident, As(q.user, thread, incident, Count(st.messages, thread) + 1));
  }

  // ---- answers --------------------------------------------------------------------

  /** The operation stores a body for the interaction's answer. */
  predicate Rewrites(st: Store, op: Op, thread: string, interaction: Option<string>) {
    op.UpsertOp? && op.thread == thread && op.d.interaction == interaction && Owned(st, thread, op.incident)
  }

  /** The body stored last, by a run over a store where it is first. */
  function LatestBody(st: Store, run: seq<Op>, thread: string, interaction: Option<string>, first: Body): Body {
    if run == [] then first
    else if Rewrites(After(st, Front(run)), Last(run), thread, interaction) then Last(run).d.body
    else LatestBody(st, Front(run), thread, interaction, first)
  }

  lemma StepRewrites(st: Store, op: Op, i: nat)
    requires Invariant(st) && Fitting(st, op) && i < |st.messages| && st.messages[i].role.Assistant?
    ensures i < |Apply(st, op).messages|
    ensures var m := st.messages[i];
      Apply(st, op).messages[i] == if Rewrites(st, op, m.thread, m.interaction) then m.(body := op.d.body) else m
  {
    var m := st.messages[i];
    StepKeeps(st, op);
    if op.UpsertOp? && Owned(st, op.thread, op.incident) {
      var k := First(st.messages, AnswersIn(op.thread, op.d.interaction));
      if op.thread == m.thread && op.d.interaction == m.interaction {
        FirstAnswer(st.messages, st.messages, i, m.thread, m.interaction);
      }
    }
  }

  /** An answer is what it first was, but for the body stored last. */
  lemma {:induction false} AnswerHasLatestBody(st: Store, run: seq<Op>, i: nat)
    requires Invariant(st) && AllFitting(st, run) && i < |st.messages| && st.messages[i].role.Assistant?
    ensures Invariant(After(st, run)) && i < |After(st, run).messages|
    ensures var m := st.messages[i];
      After(st, run).messages[i] == m.(body := LatestBody(st, run, m.thread, m.interaction, m.body))
  {
    if run != [] {
      RunKeeps(st, Front(run));
      AnswerHasLatestBody(st, Front(run), i);
      StepRewrites(After(st, Front(run)), Last(run), i);
      StepKeeps(After(st, Front(run)), Last(run));
    }
  }

  predicate Unanswered(ms: seq<Message>, thread: string, interaction: Option<string>) {
    forall m :: m in ms ==> !(m.thread == thread && m.role.Assistant? && m.interaction == interaction)
  }

  lemma FirstAnswered(st: Store, thread: string, incident: string, d: Draft)
    requires Invariant(st) && Owned(st, thread, incident)
    requires Unanswered(st.messages, thread, d.interaction) && NewId(st.messages, d)
    ensures UpsertResponse(st, thread, incident, d).0.messages
      == st.messages + [As(d, thread, incident, Count(st.messages, thread) + 1).(role := Assistant)]
  {
    NextNumber(st.messages, thread, incident, d);
  }

  lemma AnswerLater(st: Store, run: seq<Op>, thread: string, incident: string, m: Message)
    requires Invariant(st) && Owned(st, thread, incident) && AllFitting(st, run)
    requires m in st.messages && m.thread == thread && m.role.Assistant?
    ensures ListedAt(After(st, run), thread, incident, m.(body := LatestBody(st, run, thread, m.interaction, m.body)))
  {
    RunKeeps(st, run);
    var i :| 0 <= i < |st.messages| && st.messages[i] == m;
    AnswerHasLatestBody(st, run, i);
    MemberListed(After(st, run), thread, incident, After(st, run).messages[i]);
  }

  /** A first answer is listed as it was handed in, with the body stored last for it. */
  lemma AnswerIsListed(st: Store, run: seq<Op>, thread: string, incident: string, d: Draft)
    requires Invariant(st) && Owned(st, thread, incident) && Unanswered(st.messages, thread, d.interaction)
    requires NewId(st.messages, d) && AllFitting(UpsertResponse(st, thread, incident, d).0, run)
    ensures var st1 := UpsertResponse(st, thread, incident, d).0;
      var m := As(d, thread, incident, Count(st.messages, thread) + 1);
      ListedAt(After(st1, run), thread, incident,
               m.(role := Assistant, body := LatestBody(st1, run, thread, d.interaction, d.body)))
  {
    StepKeeps(st, UpsertOp(thread, incident, d));
    FirstAnswered(st, thread, incident, d);
    AnswerLater(UpsertResponse(st, thread, incident, d).0, run, thread, incident,
                As(d, thread, incident, Count(st.messages, thread) + 1).(role := Assistant));
  }
}
