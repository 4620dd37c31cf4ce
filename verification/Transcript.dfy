/** The Copilot transcript: messages of all threads in insertion order, numbered within
    their thread. */
module Transcript {
  import opened Lists
  import opened Options

  datatype Role = User | Assistant | System

  datatype Body = Body(contentType: string, content: string, packageId: Option<string>, packageVersion: Option<int>)

  /** What a caller hands in, and what is stored. */
  datatype Draft = Draft(id: string, role: Role, requestId: Option<string>, interaction: Option<string>, body: Body)

  datatype Message = Message(
    id: string, thread: string, incident: string, sequence: nat,
    role: Role, requestId: Option<string>, interaction: Option<string>, body: Body)

  datatype Error = NotOwned | OtherIncident | BadLimit

  datatype Reply<T> = Ok(value: T) | Raised(error: Error)

  /** The first message that satisfies p, or the length. */
  function First(ms: seq<Message>, p: Message -> bool): (i: nat)
    ensures i <= |ms| && (i < |ms| ==> p(ms[i]))
    ensures forall j :: 0 <= j < i ==> !p(ms[j])
  {
    if ms == [] then 0
    else
      var i := First(Front(ms), p);
      if i < |Front(ms)| || p(Last(ms)) then i else |ms|
  }

  function HasId(id: string): Message -> bool { (m: Message) => m.id == id }

  function AsksIn(thread: string, requestId: string): Message -> bool {
    (m: Message) => m.thread == thread && m.role.User? && m.requestId == Some(requestId)
  }

  function AnswersIn(thread: string, interaction: Option<string>): Message -> bool {
    (m: Message) => m.thread == thread && m.role.Assistant? && m.interaction == interaction
  }

  /** The highest number in a thread, or zero. */
  function Highest(ms: seq<Message>, thread: string): nat {
    if ms == [] then 0
    else
      var h := Highest(Front(ms), thread);
      if Last(ms).thread == thread && Last(ms).sequence > h then Last(ms).sequence else h
  }

  function Stamp(ms: seq<Message>, thread: string, incident: string, d: Draft): Message {
    Message(d.id, thread, incident, 1 + Highest(ms, thread), d.role, d.requestId, d.interaction, d.body)
  }

  /** Assignment to a dict: in place where the id is known, at the end where it is new. */
  function Insert(ms: seq<Message>, m: Message): seq<Message> {
    var i := First(ms, HasId(m.id));
    if i < |ms| then ms[i := m] else ms + [m]
  }

  /** Appends, unless the thread has a user message for the same request or the id is
      stored already; then that message is returned. */
  function Append(ms: seq<Message>, thread: string, incident: string, d: Draft): (seq<Message>, Reply<Message>) {
    var i := if d.requestId.Some? then First(ms, AsksIn(thread, d.requestId.value)) else |ms|;
    var j := First(ms, HasId(d.id));
    if i < |ms| then (ms, Ok(ms[i]))
    else if j < |ms| then (ms, if ms[j].incident != incident then Raised(OtherIncident) else Ok(ms[j]))
    else
      var m := Stamp(ms, thread, incident, d);
      (ms + [m], Ok(m))
  }

  /** Replaces the body of the interaction's answer, or stores a first answer. */
  function Upsert(ms: seq<Message>, thread: string, incident: string, d: Draft): (seq<Message>, Message) {
    var i := First(ms, AnswersIn(thread, d.interaction));
    if i < |ms| then
      var m := ms[i].(body := d.body);
      (ms[i := m], m)
    else
      var m := Stamp(ms, thread, incident, d).(role := Assistant);
      (Insert(ms, m), m)
  }

  /** Accepting stores a message only under a new id. */
  function InsertNew(ms: seq<Message>, thread: string, incident: string, d: Draft): seq<Message> {
    if First(ms, HasId(d.id)) < |ms| then ms else ms + [Stamp(ms, thread, incident, d)]
  }

  function AcceptMessages(ms: seq<Message>, thread: string, incident: string, transition: Option<Draft>,
                          user: Draft): seq<Message> {
    InsertNew(if transition.Some? then InsertNew(ms, thread, incident, transition.value) else ms,
              thread, incident, user)
  }

  // ---- density ----------------------------------------------------------------

  /** The numbers 1 to n, each once. */
  ghost function UpTo(n: nat): (r: multiset<nat>)
    ensures |r| == n
    ensures forall k :: r[k] == if 1 <= k <= n then 1 else 0
  {
    if n == 0 then multiset{} else UpTo(n - 1) + multiset{n}
  }

  ghost predicate IsUpTo(ns: multiset<nat>) { ns == UpTo(|ns|) }

  function NumberIn(m: Message, thread: string): multiset<nat> {
    if m.thread == thread then multiset{m.sequence} else multiset{}
  }

  /** The numbers of the messages of a thread. */
  function Numbers(ms: seq<Message>, thread: string): multiset<nat> {
    if ms == [] then multiset{} else Numbers(Front(ms), thread) + NumberIn(Last(ms), thread)
  }

  function Count(ms: seq<Message>, thread: string): nat { |Numbers(ms, thread)| }

  /** The messages of the thread are numbered 1 to n, each number once. */
  ghost predicate Dense(ms: seq<Message>, thread: string) { IsUpTo(Numbers(ms, thread)) }

  ghost predicate AllDense(ms: seq<Message>) { forall thread :: Dense(ms, thread) }

  /** Two ids, and not both answers to one interaction of a thread. */
  predicate Differ(m: Message, n: Message) {
    && m.id != n.id
    && (m.role.Assistant? && n.role.Assistant? ==> m.thread != n.thread || m.interaction != n.interaction)
  }

  /** Ids are unique, and no interaction of a thread has two answers. */
  predicate Apart(ms: seq<Message>) {
    forall i, j :: 0 <= i < j < |ms| ==> Differ(ms[i], ms[j])
  }

  lemma {:induction false} HighestIs(ms: seq<Message>, thread: string)
    ensures forall n :: n in Numbers(ms, thread) ==> n <= Highest(ms, thread)
    ensures Highest(ms, thread) > 0 ==> Highest(ms, thread) in Numbers(ms, thread)
  {
    if ms != [] {
      HighestIs(Front(ms), thread);
    }
  }

  lemma DenseHighest(ns: multiset<nat>, h: nat)
    requires IsUpTo(ns) && (forall n :: n in ns ==> n <= h) && (h > 0 ==> h in ns)
    ensures h == |ns|
  {
    var n: nat := |ns|;
    if n > 0 {
      assert n in UpTo(n);
    }
  }

  lemma HighestIsCount(ms: seq<Message>, thread: string)
    requires Dense(ms, thread)
    ensures Highest(ms, thread) == Count(ms, thread)
  {
    HighestIs(ms, thread);
    DenseHighest(Numbers(ms, thread), Highest(ms, thread));
  }

  // ---- multisets of numbers ---------------------------------------------------

  lemma NextIsUpTo(ns: multiset<nat>, n: nat)
    requires IsUpTo(ns) && n == |ns| + 1
    ensures IsUpTo(ns + multiset{n})
  {
    assert |ns + multiset{n}| == n;
  }

  /** Of the numbers 1 to n, only the last can go ... */
  lemma GoneIsUpToIff(ns: multiset<nat>, rest: multiset<nat>, q: nat)
    requires IsUpTo(ns) && rest + multiset{q} == ns
    ensures IsUpTo(rest) <==> q == |ns|
  {
    var n: nat := |ns|;
    assert |rest + multiset{q}| == |rest| + 1;
    assert forall k: nat :: (rest + multiset{q})[k] == rest[k] + (if k == q then 1 else 0);
    if q == n {
      assert forall k: nat :: rest[k] == UpTo(n - 1)[k];
    } else {
      assert rest[n] == 1;
      assert n !in UpTo(n - 1);
    }
  }

  /** ... and none can be exchanged for the next. */
  lemma ExchangedIsNotUpTo(ns: multiset<nat>, rest: multiset<nat>, q: nat)
    requires IsUpTo(ns) && rest + multiset{q} == ns
    ensures !IsUpTo(rest + multiset{|ns| + 1})
  {
    var next: nat := |ns| + 1;
    assert |rest + multiset{q}| == |rest| + 1;
    assert |rest + multiset{next}| == |rest| + 1;
    assert next in rest + multiset{next};
    assert next !in UpTo(|ns|);
  }

  // ---- one operation ----------------------------------------------------------

  lemma {:induction false} NumbersReplaced(ms: seq<Message>, i: nat, m: Message,
                                           thread: string) returns (rest: multiset<nat>)
    requires i < |ms|
    ensures Numbers(ms, thread) == rest + NumberIn(ms[i], thread)
    ensures Numbers(ms[i := m], thread) == rest + NumberIn(m, thread)
  {
    if i == |ms| - 1 {
      assert Front(ms[i := m]) == Front(ms);
      rest := Numbers(Front(ms), thread);
    } else {
      assert Front(ms[i := m]) == Front(ms)[i := m];
      var inner := NumbersReplaced(Front(ms), i, m, thread);
      rest := inner + NumberIn(Last(ms), thread);
    }
  }

  lemma NumbersSnoc(ms: seq<Message>, m: Message, thread: string)
    ensures Numbers(ms + [m], thread) == Numbers(ms, thread) + NumberIn(m, thread)
  {
    assert Front(ms + [m]) == ms;
  }

  /** Appending the next number keeps every thread dense. */
  lemma AppendDense(ms: seq<Message>, m: Message)
    requires AllDense(ms) && m.sequence == 1 + Highest(ms, m.thread)
    ensures AllDense(ms + [m])
  {
    forall thread ensures Dense(ms + [m], thread) {
      assert Dense(ms, thread);
      NumbersSnoc(ms, m, thread);
      if thread == m.thread {
        HighestIsCount(ms, thread);
        NextIsUpTo(Numbers(ms, thread), m.sequence);
      }
    }
  }

  /** Overwriting a message with one numbered next keeps every thread dense exactly when
      it was the last of another thread. */
  lemma ReplaceDenseIff(ms: seq<Message>, i: nat, m: Message)
    requires AllDense(ms) && i < |ms| && m.sequence == 1 + Highest(ms, m.thread)
    ensures AllDense(ms[i := m]) <==> ms[i].thread != m.thread && ms[i].sequence == Count(ms, ms[i].thread)
  {
    var after, was := ms[i := m], ms[i];
    assert Dense(ms, was.thread) && Dense(ms, m.thread);
    HighestIsCount(ms, m.thread);
    var rest := NumbersReplaced(ms, i, m, was.thread);
    if was.thread == m.thread {
      ExchangedIsNotUpTo(Numbers(ms, m.thread), rest, was.sequence);
      assert !Dense(after, m.thread);
    } else {
      GoneIsUpToIff(Numbers(ms, was.thread), rest, was.sequence);
      assert Numbers(after, was.thread) == rest;
      assert Dense(after, was.thread) <==> was.sequence == Count(ms, was.thread);
      forall thread | thread != was.thread ensures Dense(after, thread) {
        OtherThreadDense(ms, i, m, thread);
      }
    }
  }

  lemma OtherThreadDense(ms: seq<Message>, i: nat, m: Message, thread: string)
    requires Dense(ms, thread) && i < |ms| && ms[i].thread != thread && m.sequence == 1 + Highest(ms, m.thread)
    ensures Dense(ms[i := m], thread)
  {
    var rest := NumbersReplaced(ms, i, m, thread);
    assert Numbers(ms, thread) == rest;
    if m.thread == thread {
      HighestIsCount(ms, thread);
      NextIsUpTo(rest, m.sequence);
    }
  }

  /** Changing only the body of a message changes no number. */
  lemma BodyDense(ms: seq<Message>, i: nat, m: Message)
    requires AllDense(ms) && i < |ms| && m.thread == ms[i].thread && m.sequence == ms[i].sequence
    ensures AllDense(ms[i := m])
  {
    var after := ms[i := m];
    forall thread ensures Dense(after, thread) {
      assert Dense(ms, thread);
      SameNumbers(ms, i, m, thread);
    }
  }

  lemma SameNumbers(ms: seq<Message>, i: nat, m: Message, thread: string)
    requires i < |ms| && m.thread == ms[i].thread && m.sequence == ms[i].sequence
    ensures Numbers(ms[i := m], thread) == Numbers(ms, thread)
  {
    var rest := NumbersReplaced(ms, i, m, thread);
  }

  /** A retried answer aside, storing an answer keeps every thread numbered 1 to n exactly
      when its id is new, or was that of the last message of another thread. */
  lemma UpsertDenseIff(ms: seq<Message>, thread: string, incident: string, d: Draft)
    requires AllDense(ms)
    ensures var i, j := First(ms, AnswersIn(thread, d.interaction)), First(ms, HasId(d.id));
      AllDense(Upsert(ms, thread, incident, d).0) <==>
        (i < |ms| || j == |ms| || (ms[j].thread != thread && ms[j].sequence == Count(ms, ms[j].thread)))
  {
    var i, j := First(ms, AnswersIn(thread, d.interaction)), First(ms, HasId(d.id));
    if i < |ms| {
      BodyDense(ms, i, ms[i].(body := d.body));
    } else {
      var m := Stamp(ms, thread, incident, d).(role := Assistant);
      if j == |ms| {
        AppendDense(ms, m);
      } else {
        ReplaceDenseIff(ms, j, m);
      }
    }
  }

  lemma AppendKeepsDense(ms: seq<Message>, thread: string, incident: string, d: Draft)
    requires AllDense(ms)
    ensures AllDense(Append(ms, thread, incident, d).0) && AllDense(InsertNew(ms, thread, incident, d))
  {
    AppendDense(ms, Stamp(ms, thread, incident, d));
  }

  /** It breaks: after two messages of a thread, a first answer under the id of the first of
      them takes its place with a third number. */
  lemma UsedIdBreaks(thread: string, incident: string, first: Draft, second: Draft, answer: Draft)
    requires first.id != second.id && first.requestId.None? && second.requestId.None?
    requires !first.role.Assistant? && !second.role.Assistant? && answer.id == first.id
    ensures var ms := Append(Append([], thread, incident, first).0, thread, incident, second).0;
      |ms| == 2 && AllDense(ms) && !AllDense(Upsert(ms, thread, incident, answer).0)
  {
    var one := Append([], thread, incident, first).0;
    var ms := Append(one, thread, incident, second).0;
    assert AllDense([]) by {
      forall t ensures Dense([], t) {
        assert Numbers([], t) == UpTo(0);
      }
    }
    AppendKeepsDense([], thread, incident, first);
    AppendKeepsDense(one, thread, incident, second);
    assert one == [Stamp([], thread, incident, first)];
    assert !HasId(second.id)(one[0]);
    assert ms == one + [Stamp(one, thread, incident, second)];
    var j := First(ms, HasId(answer.id));
    assert HasId(answer.id)(ms[0]);
    assert j == 0 && ms[0].thread == thread;
    UpsertDenseIff(ms, thread, incident, answer);
  }
}
