/** Paging through a thread by sequence number. */
module TranscriptPages {
  import opened Lists
  import opened Options
  import opened Transcript
  import opened TranscriptRuns
  import Sorting

  /** The messages of a thread numbered above after, in insertion order. */
  function Selected(ms: seq<Message>, thread: string, after: int): seq<Message> {
    if ms == [] then []
    else Selected(Front(ms), thread, after)
         + (if Last(ms).thread == thread && Last(ms).sequence > after then [Last(ms)] else [])
  }

  predicate Ascending(ms: seq<Message>) {
    forall i, j :: 0 <= i < j < |ms| ==> ms[i].sequence <= ms[j].sequence
  }

  predicate Beyond(m: Message, n: Message) { m.sequence > n.sequence }

  function Sorted(ms: seq<Message>): seq<Message> { Sorting.Sort(Beyond, ms) }

  lemma SortedIs(ms: seq<Message>)
    ensures Ascending(Sorted(ms)) && multiset(Sorted(ms)) == multiset(ms) && |Sorted(ms)| == |ms|
  {
    Sorting.SortInOrder(Beyond, ms);
    Sorting.SortKeeps(Beyond, ms);
  }

  function Listed(ms: seq<Message>, thread: string, after: int): seq<Message> {
    Sorted(Selected(ms, thread, after))
  }

  datatype Page = Page(items: seq<Message>, next: Option<nat>)

  /** One page, and the number to go on from when there is more. */
  function PageOf(ms: seq<Message>, thread: string, after: int, limit: int): Page
    requires limit >= 1
  {
    var all := Listed(ms, thread, after);
    if |all| > limit then Page(all[..limit], Some(all[limit-1].sequence)) else Page(all, None)
  }

  function ListMessages(st: Store, thread: string, incident: string, after: Option<int>, limit: int): Reply<Page> {
    if !(1 <= limit <= 100) then Raised(BadLimit)
    else if !Owned(st, thread, incident) then Raised(NotOwned)
    else Ok(PageOf(st.messages, thread, if after.Some? then after.value else 0, limit))
  }

  // ---- a dense thread, listed -------------------------------------------------

  lemma SumAt(a: multiset<nat>, b: multiset<nat>, k: nat)
    ensures (a + b)[k] == a[k] + b[k]
  {
  }

  lemma {:induction false} SelectedNumbers(ms: seq<Message>, thread: string, after: int, k: nat)
    ensures Numbers(Selected(ms, thread, after), thread)[k] == if k > after then Numbers(ms, thread)[k] else 0
  {
    if ms != [] {
      var rest := Selected(Front(ms), thread, after);
      SelectedNumbers(Front(ms), thread, after, k);
      SumAt(Numbers(Front(ms), thread), NumberIn(Last(ms), thread), k);
      if Last(ms).thread == thread && Last(ms).sequence > after {
        NumbersSnoc(rest, Last(ms), thread);
        SumAt(Numbers(rest, thread), NumberIn(Last(ms), thread), k);
      } else {
        assert rest + [] == rest;
      }
    }
  }

  lemma {:induction false} SelectedIff(ms: seq<Message>, thread: string, after: int, m: Message)
    ensures m in Selected(ms, thread, after) <==> m in ms && m.thread == thread && m.sequence > after
  {
    if ms != [] {
      SelectedIff(Front(ms), thread, after, m);
      assert ms == Front(ms) + [Last(ms)];
    }
  }

  lemma {:induction false} PlacedNumbers(m: Message, ms: seq<Message>, thread: string)
    ensures Numbers(Sorting.Place(Beyond, m, ms), thread) == Numbers(ms, thread) + NumberIn(m, thread)
  {
    if ms == [] || Last(ms).sequence <= m.sequence {
      NumbersSnoc(ms, m, thread);
    } else {
      PlacedNumbers(m, Front(ms), thread);
      NumbersSnoc(Sorting.Place(Beyond, m, Front(ms)), Last(ms), thread);
    }
  }

  lemma {:induction false} SortedNumbers(ms: seq<Message>, thread: string)
    ensures Numbers(Sorting.Sort(Beyond, ms), thread) == Numbers(ms, thread)
  {
    if ms != [] {
      SortedNumbers(Front(ms), thread);
      PlacedNumbers(Last(ms), Sorting.Sort(Beyond, Front(ms)), thread);
    }
  }

  /** The numbers after + 1 to n, each once. */
  ghost predicate Run(ns: multiset<nat>, after: int, n: nat) {
    forall k: nat :: ns[k] == if after < k <= n then 1 else 0
  }

  predicate Numbered(ms: seq<Message>, thread: string, after: int) {
    forall i :: 0 <= i < |ms| ==> ms[i].thread == thread && ms[i].sequence == after + 1 + i
  }

  lemma {:induction false} MemberNumber(ms: seq<Message>, thread: string, i: nat)
    requires i < |ms| && ms[i].thread == thread
    ensures ms[i].sequence in Numbers(ms, thread)
  {
    if i < |ms| - 1 {
      MemberNumber(Front(ms), thread, i);
    }
  }

  lemma {:induction false} NumberMember(ms: seq<Message>, thread: string, k: nat) returns (i: nat)
    requires k in Numbers(ms, thread)
    ensures i < |ms| && ms[i].thread == thread && ms[i].sequence == k
  {
    if k in NumberIn(Last(ms), thread) {
      i := |ms| - 1;
    } else {
      i := NumberMember(Front(ms), thread, k);
    }
  }

  /** Messages in ascending order that carry after + 1 to n, each once, carry them in
      turn. */
  lemma {:induction false} AscendingRun(ms: seq<Message>, thread: string, after: nat, n: nat)
    requires Ascending(ms) && (forall m :: m in ms ==> m.thread == thread)
    requires after <= n && Run(Numbers(ms, thread), after, n)
    ensures |ms| == n - after && Numbered(ms, thread, after)
    decreases n - after
  {
    assert ms != [] ==> Last(ms) in ms;
    LastCounts(ms, thread);
    if n > after {
      LastIsHighest(ms, thread, n);
      forall k: nat ensures Numbers(Front(ms), thread)[k] == if after < k <= n - 1 then 1 else 0 {
        SumAt(Numbers(Front(ms), thread), NumberIn(Last(ms), thread), k);
      }
      AscendingRun(Front(ms), thread, after, n - 1);
    }
  }

  lemma LastIsHighest(ms: seq<Message>, thread: string, n: nat)
    requires Ascending(ms) && (forall m :: m in ms ==> m.thread == thread)
    requires n in Numbers(ms, thread) && forall k: nat :: k in Numbers(ms, thread) ==> k <= n
    ensures ms != [] && Last(ms).sequence == n
  {
    var i := NumberMember(ms, thread, n);
    assert Last(ms) in ms;
    MemberNumber(ms, thread, |ms| - 1);
  }

  lemma LastCounts(ms: seq<Message>, thread: string)
    ensures ms != [] && Last(ms).thread == thread ==> Numbers(ms, thread)[Last(ms).sequence] > 0
  {
    if ms != [] && Last(ms).thread == thread {
      SumAt(Numbers(Front(ms), thread), NumberIn(Last(ms), thread), Last(ms).sequence);
    }
  }

  lemma ListedNumber(ms: seq<Message>, thread: string, after: nat, k: nat)
    requires Dense(ms, thread)
    ensures Numbers(Listed(ms, thread, after), thread)[k] == if after < k <= Count(ms, thread) then 1 else 0
  {
    SortedNumbers(Selected(ms, thread, after), thread);
    SelectedNumbers(ms, thread, after, k);
    assert Numbers(ms, thread)[k] == UpTo(Count(ms, thread))[k];
  }

  lemma ListedNumbers(ms: seq<Message>, thread: string, after: nat)
    requires Dense(ms, thread)
    ensures Run(Numbers(Listed(ms, thread, after), thread), after, Count(ms, thread))
  {
    var numbers := Numbers(Listed(ms, thread, after), thread);
    forall k: nat ensures numbers[k] == if after < k <= Count(ms, thread) then 1 else 0 {
      ListedNumber(ms, thread, after, k);
    }
  }

  /** The list of a dense thread is its messages after + 1 to n in turn. */
  lemma ListedInTurn(ms: seq<Message>, thread: string, after: nat)
    requires Dense(ms, thread) && after <= Count(ms, thread)
    ensures |Listed(ms, thread, after)| == Count(ms, thread) - after
    ensures Numbered(Listed(ms, thread, after), thread, after)
  {
    var listed := Listed(ms, thread, after);
    ListedNumbers(ms, thread, after);
    SortedIs(Selected(ms, thread, after));
    forall m | m in listed ensures m.thread == thread {
      ListedIff(ms, thread, after, m);
    }
    AscendingRun(listed, thread, after, Count(ms, thread));
  }

  lemma ListedIff(ms: seq<Message>, thread: string, after: int, m: Message)
    ensures m in Listed(ms, thread, after) <==> m in ms && m.thread == thread && m.sequence > after
  {
    SelectedIff(ms, thread, after, m);
    SortedIs(Selected(ms, thread, after));
    assert m in Listed(ms, thread, after) <==> m in multiset(Listed(ms, thread, after));
    assert m in Selected(ms, thread, after) <==> m in multiset(Selected(ms, thread, after));
  }

  // ---- following the pages ----------------------------------------------------

  /** All pages of a fixed transcript, from after on: this terminates, dense or not. */
  function Follow(ms: seq<Message>, thread: string, after: int, limit: int): seq<Message>
    requires limit >= 1
    decreases Highest(ms, thread) - after
  {
    var page := PageOf(ms, thread, after, limit);
    if page.next.None? then page.items
    else
      assert after < page.next.value <= Highest(ms, thread) by { NextAdvances(ms, thread, after, limit); }
      page.items + Follow(ms, thread, page.next.value, limit)
  }

  lemma NextAdvances(ms: seq<Message>, thread: string, after: int, limit: int)
    requires limit >= 1 && PageOf(ms, thread, after, limit).next.Some?
    ensures after < PageOf(ms, thread, after, limit).next.value <= Highest(ms, thread)
  {
    var m := Listed(ms, thread, after)[limit-1];
    ListedIff(ms, thread, after, m);
    var i :| 0 <= i < |ms| && ms[i] == m;
    MemberNumber(ms, thread, i);
    HighestIs(ms, thread);
  }

  predicate AllIn(xs: seq<Message>, ms: seq<Message>) {
    forall m :: m in xs ==> m in ms
  }

  /** xs is the messages after + 1 to n of the thread, in turn. */
  predicate InTurn(xs: seq<Message>, ms: seq<Message>, thread: string, after: nat, n: nat) {
    n == after + |xs| && Numbered(xs, thread, after) && AllIn(xs, ms)
  }

  lemma InTurnConcat(xs: seq<Message>, ys: seq<Message>, ms: seq<Message>, thread: string, after: nat, mid: nat, n: nat)
    requires InTurn(xs, ms, thread, after, mid) && InTurn(ys, ms, thread, mid, n)
    ensures InTurn(xs + ys, ms, thread, after, n)
  {
  }

  /** Where the page from after on ends. */
  function PageEnd(ms: seq<Message>, thread: string, after: nat, limit: int): nat
    requires limit >= 1 && after <= Count(ms, thread)
  {
    if Count(ms, thread) - after > limit then after + limit else Count(ms, thread)
  }

  /** The page of a dense thread. */
  lemma PageInTurn(ms: seq<Message>, thread: string, after: nat, limit: int)
    requires limit >= 1 && Dense(ms, thread) && after <= Count(ms, thread)
    ensures var page, end := PageOf(ms, thread, after, limit), PageEnd(ms, thread, after, limit);
      && InTurn(page.items, ms, thread, after, end)
      && page.next == if end < Count(ms, thread) then Some(end) else None
  {
    ListedInTurn(ms, thread, after);
    forall m | m in Listed(ms, thread, after) ensures m in ms {
      ListedIff(ms, thread, after, m);
    }
  }

  lemma FollowUnfolds(ms: seq<Message>, thread: string, after: nat, limit: int, page: Page)
    requires limit >= 1 && page == PageOf(ms, thread, after, limit)
    ensures Follow(ms, thread, after, limit)
      == if page.next.None? then page.items else page.items + Follow(ms, thread, page.next.value, limit)
  {
  }

  /** Following next_sequence through a dense thread gives every message after the start
      once, in order. */
  lemma {:induction false} FollowComplete(ms: seq<Message>, thread: string, after: nat, limit: int)
    requires limit >= 1 && Dense(ms, thread) && after <= Count(ms, thread)
    ensures InTurn(Follow(ms, thread, after, limit), ms, thread, after, Count(ms, thread))
    decreases Count(ms, thread) - after
  {
    var page, end := PageOf(ms, thread, after, limit), PageEnd(ms, thread, after, limit);
    PageInTurn(ms, thread, after, limit);
    FollowUnfolds(ms, thread, after, limit, page);
    if end < Count(ms, thread) {
      FollowComplete(ms, thread, end, limit);
      InTurnConcat(page.items, Follow(ms, thread, end, limit), ms, thread, after, end, Count(ms, thread));
    }
  }

  // ---- while the thread grows -------------------------------------------------

  /** Each page read from a later transcript than the one before. */
  function FollowLater(snapshots: seq<seq<Message>>, thread: string, after: int, limit: int): (seq<Message>, bool)
    requires limit >= 1
  {
    if snapshots == [] then ([], false)
    else
      var page := PageOf(snapshots[0], thread, after, limit);
      if page.next.None? then (page.items, true)
      else
        var (rest, done) := FollowLater(snapshots[1..], thread, page.next.value, limit);
        (page.items + rest, done)
  }

  ghost predicate Growing(snapshots: seq<seq<Message>>, thread: string) {
    && (forall i :: 0 <= i < |snapshots| ==> Dense(snapshots[i], thread) && Apart(snapshots[i]))
    && (forall i, j :: 0 <= i < j < |snapshots| ==> Grows(snapshots[i], snapshots[j]))
  }

  /** A message keeps its number, so a later transcript shows it under the same one. */
  lemma SameNumberSameId(ms: seq<Message>, ns: seq<Message>, thread: string, m: Message, n: Message)
    requires Grows(ms, ns) && Dense(ns, thread) && m in ms && n in ns
    requires m.thread == thread && n.thread == thread && m.sequence == n.sequence
    ensures SameButBody(m, n)
  {
    var i :| 0 <= i < |ms| && ms[i] == m;
    var j :| 0 <= j < |ns| && ns[j] == n;
    assert SameButBody(ms[i], ns[i]);
    if i != j {
      TwiceNumbered(ns, thread, i, j);
    }
  }

  /** No number occurs twice in a dense thread. */
  lemma {:induction false} TwiceNumbered(ms: seq<Message>, thread: string, i: nat, j: nat)
    requires i < |ms| && j < |ms| && i != j && ms[i].thread == thread && ms[j].thread == thread
    requires ms[i].sequence == ms[j].sequence
    ensures Numbers(ms, thread)[ms[i].sequence] >= 2
    decreases |ms|
  {
    var front := Front(ms);
    SumAt(Numbers(front, thread), NumberIn(Last(ms), thread), ms[i].sequence);
    if i < |ms| - 1 && j < |ms| - 1 {
      TwiceNumbered(front, thread, i, j);
    } else {
      var k := if i < |ms| - 1 then i else j;
      assert front[k] == ms[k];
      MemberNumber(front, thread, k);
    }
  }

  lemma {:induction false} CountGrows(ms: seq<Message>, ns: seq<Message>, thread: string)
    requires Grows(ms, ns)
    ensures Count(ms, thread) <= Count(ns, thread)
    decreases |ns|
  {
    if ns != [] {
      if |ms| == |ns| {
        assert SameButBody(Last(ms), Last(ns));
        CountGrows(Front(ms), Front(ns), thread);
      } else {
        CountGrows(ms, Front(ns), thread);
      }
    }
  }

  predicate FromOne(snapshots: seq<seq<Message>>, m: Message) {
    exists i :: 0 <= i < |snapshots| && m in snapshots[i]
  }

  /** The messages after + 1 on, in turn, each as some snapshot shows it. */
  predicate Read(xs: seq<Message>, snapshots: seq<seq<Message>>, thread: string, after: nat) {
    Numbered(xs, thread, after) && forall m :: m in xs ==> FromOne(snapshots, m)
  }

  lemma ReadConcat(xs: seq<Message>, ys: seq<Message>, snapshots: seq<seq<Message>>, thread: string, after: nat)
    requires snapshots != [] && Numbered(xs, thread, after) && AllIn(xs, snapshots[0])
    requires Read(ys, snapshots[1..], thread, after + |xs|)
    ensures Read(xs + ys, snapshots, thread, after)
  {
    forall m | m in xs + ys ensures FromOne(snapshots, m) {
      if m !in xs {
        assert FromOne(snapshots[1..], m);
        var i :| 0 <= i < |snapshots[1..]| && m in snapshots[1..][i];
        assert m in snapshots[i + 1];
      }
    }
  }

  lemma FollowLaterUnfolds(snapshots: seq<seq<Message>>, thread: string, after: nat, limit: int, page: Page)
    requires limit >= 1 && snapshots != [] && page == PageOf(snapshots[0], thread, after, limit)
    ensures FollowLater(snapshots, thread, after, limit) ==
      if page.next.None? then (page.items, true)
      else (page.items + FollowLater(snapshots[1..], thread, page.next.value, limit).0,
            FollowLater(snapshots[1..], thread, page.next.value, limit).1)
  {
  }

  /** Pages read while the thread grows still come in turn, and reading to the end gives at
      least as many messages as there were at the start. */
  lemma {:induction false} FollowLaterInTurn(snapshots: seq<seq<Message>>, thread: string, after: nat, limit: int)
    requires limit >= 1 && Swelling(snapshots, thread) && (snapshots != [] ==> after <= Count(snapshots[0], thread))
    ensures Read(FollowLater(snapshots, thread, after, limit).0, snapshots, thread, after)
    ensures FollowLater(snapshots, thread, after, limit).1 ==>
      snapshots != [] && after + |FollowLater(snapshots, thread, after, limit).0| >= Count(snapshots[0], thread)
    decreases |snapshots|
  {
    if snapshots != [] {
      var ms, later := snapshots[0], snapshots[1..];
      var page, end := PageOf(ms, thread, after, limit), PageEnd(ms, thread, after, limit);
      PageInTurn(ms, thread, after, limit);
      FollowLaterUnfolds(snapshots, thread, after, limit, page);
      ReadConcat(page.items, [], snapshots, thread, after);
      assert page.items + [] == page.items;
      if end < Count(ms, thread) {
        SwellingLater(snapshots, thread);
        FollowLaterInTurn(later, thread, end, limit);
        ReadConcat(page.items, FollowLater(later, thread, end, limit).0, snapshots, thread, after);
      }
    }
  }

  /** Every snapshot dense, and none with fewer messages than the one before. */
  ghost predicate Swelling(snapshots: seq<seq<Message>>, thread: string) {
    && (forall i :: 0 <= i < |snapshots| ==> Dense(snapshots[i], thread))
    && (forall i, j :: 0 <= i < j < |snapshots| ==> Count(snapshots[i], thread) <= Count(snapshots[j], thread))
  }

  lemma SwellingLater(snapshots: seq<seq<Message>>, thread: string)
    requires snapshots != [] && Swelling(snapshots, thread)
    ensures Swelling(snapshots[1..], thread)
    ensures |snapshots| > 1 ==> Count(snapshots[0], thread) <= Count(snapshots[1], thread)
  {
  }

  lemma GrowingSwells(snapshots: seq<seq<Message>>, thread: string)
    requires Growing(snapshots, thread)
    ensures Swelling(snapshots, thread)
  {
    forall i, j | 0 <= i < j < |snapshots| ensures Count(snapshots[i], thread) <= Count(snapshots[j], thread) {
      CountGrows(snapshots[i], snapshots[j], thread);
    }
  }

  /** However the thread grows meanwhile, every message present at the start is read, once,
      at the place its number says. */
  lemma FollowLaterComplete(snapshots: seq<seq<Message>>, thread: string, limit: int, m: Message)
    requires limit >= 1 && snapshots != [] && Growing(snapshots, thread)
    requires FollowLater(snapshots, thread, 0, limit).1
    requires m in snapshots[0] && m.thread == thread
    ensures var all := FollowLater(snapshots, thread, 0, limit).0;
      && 1 <= m.sequence <= |all| && SameButBody(m, all[m.sequence - 1])
      && forall k :: 0 <= k < |all| ==> (all[k].sequence == m.sequence <==> k == m.sequence - 1)
  {
    var ms, all := snapshots[0], FollowLater(snapshots, thread, 0, limit).0;
    GrowingSwells(snapshots, thread);
    FollowLaterInTurn(snapshots, thread, 0, limit);
    var i :| 0 <= i < |ms| && ms[i] == m;
    MemberNumber(ms, thread, i);
    ReadHas(snapshots, all, thread, m);
  }

  lemma ReadHas(snapshots: seq<seq<Message>>, all: seq<Message>, thread: string, m: Message)
    requires snapshots != [] && Growing(snapshots, thread) && Read(all, snapshots, thread, 0)
    requires m in snapshots[0] && m.thread == thread && 1 <= m.sequence <= |all|
    ensures SameButBody(m, all[m.sequence - 1])
  {
    var n := all[m.sequence - 1];
    assert FromOne(snapshots, n);
    var j :| 0 <= j < |snapshots| && n in snapshots[j];
    assert Grows(snapshots[0], snapshots[0]);
    SameNumberSameId(snapshots[0], snapshots[j], thread, m, n);
  }

  // ---- snapshots of one run ---------------------------------------------------

  lemma {:induction false} AfterConcat(st: Store, run: seq<Op>, more: seq<Op>)
    requires AllFitting(st, run + more)
    ensures AllFitting(st, run) && AllFitting(After(st, run), more)
    ensures After(st, run + more) == After(After(st, run), more)
  {
    if more == [] {
      assert run + more == run;
    } else {
      assert Front(run + more) == run + Front(more) && Last(run + more) == Last(more);
      AfterConcat(st, run, Front(more));
    }
  }

  /** The transcripts at ever later moments of a run from a sound store are growing. */
  lemma SnapshotsGrow(st: Store, run: seq<Op>, moments: seq<nat>, snapshots: seq<seq<Message>>, thread: string)
    requires Invariant(st) && AllFitting(st, run) && |snapshots| == |moments|
    requires forall i, j :: 0 <= i < j < |moments| ==> moments[i] <= moments[j]
    requires forall i :: 0 <= i < |moments| ==>
      moments[i] <= |run| && snapshots[i] == After(st, run[..moments[i]]).messages
    ensures Growing(snapshots, thread)
  {
    forall i | 0 <= i < |moments| ensures Dense(snapshots[i], thread) && Apart(snapshots[i]) {
      assert run == run[..moments[i]] + run[moments[i]..];
      AfterConcat(st, run[..moments[i]], run[moments[i]..]);
      RunKeeps(st, run[..moments[i]]);
    }
    forall i, j | 0 <= i < j < |moments| ensures Grows(snapshots[i], snapshots[j]) {
      LaterMoment(st, run, moments[i], moments[j]);
    }
  }

  lemma LaterMoment(st: Store, run: seq<Op>, m: nat, n: nat)
    requires Invariant(st) && AllFitting(st, run) && m <= n <= |run|
    ensures Grows(After(st, run[..m]).messages, After(st, run[..n]).messages)
  {
    assert run == run[..n] + run[n..] && run[..n] == run[..m] + run[m..n];
    AfterConcat(st, run[..n], run[n..]);
    AfterConcat(st, run[..m], run[m..n]);
    RunKeeps(st, run[..m]);
    RunKeeps(After(st, run[..m]), run[m..n]);
  }
}
