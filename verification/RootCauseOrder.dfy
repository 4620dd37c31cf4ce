/** The outcome of the root-cause analysis does not depend on the order of the events, as
    long as no two of them are equally far from the incident. */
module RootCauseOrder {
  import opened Lists
  import opened Folds
  import opened RootCause
  import opened RootCauseRanking

  function Union(a: multiset<Hypothesis>, b: multiset<Hypothesis>): multiset<Hypothesis> { a + b }

  lemma UnionMonoid()
    ensures CommutativeMonoid(Union, multiset{})
  {
    forall a, b ensures Commutes(Union, a, b) {
      assert a + b == b + a;
    }
    forall a, b, c ensures Associates(Union, a, b, c) {
      assert (a + b) + c == a + (b + c);
    }
    forall a ensures Neutral(Union, a, multiset{}) {
      assert a + multiset{} == a;
    }
  }

  /** A hypothesis but for the rollbacks that support it; they are listed in event order. */
  function Core(h: Hypothesis): Hypothesis {
    h.(supporting := if Counterfactual in h.supporting then [Counterfactual] else [])
  }

  function Cores(hs: seq<Hypothesis>): (r: seq<Hypothesis>)
    ensures |r| == |hs| && forall i :: 0 <= i < |hs| ==> r[i] == Core(hs[i])
  {
    if hs == [] then [] else Cores(Front(hs)) + [Core(Last(hs))]
  }

  function CoreBag(): Hypothesis -> multiset<Hypothesis> { h => multiset{Core(h)} }

  lemma {:induction false} CoresAreSum(hs: seq<Hypothesis>)
    ensures multiset(Cores(hs)) == SumOf(hs, CoreBag(), Union, multiset{})
  {
    if hs != [] {
      CoresAreSum(Front(hs));
    }
  }

  lemma CoresOrderFree(hs: seq<Hypothesis>, gs: seq<Hypothesis>)
    requires multiset(hs) == multiset(gs)
    ensures multiset(Cores(hs)) == multiset(Cores(gs))
  {
    UnionMonoid();
    SumOrderFree(hs, gs, CoreBag(), Union, multiset{});
    CoresAreSum(hs);
    CoresAreSum(gs);
  }

  /** The core of what becomes of e, given all the later rollbacks. */
  function CoreFor(c: Case, e: OperationalEvent, rollbacks: set<OperationalEvent>): Hypothesis {
    var h := Core(Build(c, e));
    h.(tier := TierOf(Build(c, e).supporting, exists b :: b in rollbacks && Reverts(b, e)))
  }

  function BagFor(r: Rules, c: Case, rollbacks: set<OperationalEvent>): OperationalEvent -> multiset<Hypothesis> {
    e => if Judge(r, c, e).Admitted? then multiset{CoreFor(c, e, rollbacks)} else multiset{}
  }

  function RollbacksIn(r: Rules, x: Input): set<OperationalEvent> {
    if x.recovery then set e | e in x.events && Judge(r, x.incident, e).LaterRollback? else {}
  }

  predicate DistinctIds(es: seq<OperationalEvent>) {
    forall i, j :: 0 <= i < j < |es| ==> es[i].id != es[j].id
  }

  lemma {:induction false} LaterAre(r: Rules, c: Case, es: seq<OperationalEvent>)
    ensures forall e :: e in Later(r, c, es) <==> e in es && Judge(r, c, e).LaterRollback?
  {
    if es != [] {
      LaterAre(r, c, Front(es));
      assert es == Front(es) + [Last(es)];
    }
  }

  lemma FoundById(es: seq<OperationalEvent>, e: OperationalEvent)
    requires DistinctIds(es) && e in es
    ensures ById(es, e.id) < |es| && es[ById(es, e.id)] == e
  {
    var j :| 0 <= j < |es| && es[j] == e;
    var i := ById(es, e.id);
    assert i < |es|;
  }

  predicate SomeReverts(rollbacks: set<OperationalEvent>, e: OperationalEvent) {
    exists b :: b in rollbacks && Reverts(b, e)
  }

  lemma ConfirmCore(h: Hypothesis, e: OperationalEvent, later: seq<OperationalEvent>, rollbacks: set<OperationalEvent>)
    requires h.tier == TierOf(h.supporting, false) && forall b :: b in later <==> b in rollbacks
    ensures Core(Confirm(h, e, later)) == Core(h).(tier := TierOf(h.supporting, SomeReverts(rollbacks, e)))
  {
    ConfirmRaises(h, e, later);
  }

  /** What becomes of the hypothesis about e. */
  function Final(r: Rules, x: Input, e: OperationalEvent): Hypothesis {
    if x.recovery then ConfirmFrom(Build(x.incident, e), x.events,
                                   Later(r, x.incident, x.events)) else Build(x.incident, e)
  }

  lemma BuildTier(c: Case, e: OperationalEvent)
    ensures Build(c, e).tier == TierOf(Build(c, e).supporting, false) && Build(c, e).event == e
  {
  }

  lemma ConfirmedCore(r: Rules, x: Input, e: OperationalEvent)
    requires DistinctIds(x.events) && e in x.events
    ensures Core(Final(r, x, e)) == CoreFor(x.incident, e, RollbacksIn(r, x))
  {
    var h, later := Build(x.incident, e), Later(r, x.incident, x.events);
    BuildTier(x.incident, e);
    if x.recovery {
      FoundById(x.events, e);
      LaterAre(r, x.incident, x.events);
      ConfirmCore(h, e, later, RollbacksIn(r, x));
    }
  }

  /** The hypotheses about the admitted among the first events. */
  function Finals(r: Rules, x: Input, es: seq<OperationalEvent>): seq<Hypothesis> {
    if es == [] then []
    else Finals(r, x, Front(es)) + One(Judge(r, x.incident, Last(es)).Admitted?, Final(r, x, Last(es)))
  }

  lemma {:induction false} FinalsAre(r: Rules, x: Input, es: seq<OperationalEvent>)
    ensures Finals(r, x, es) ==
      if x.recovery then ConfirmAll(Built(r, x.incident, es), x.events, Later(r, x.incident, x.events))
      else Built(r, x.incident, es)
  {
    if es != [] {
      FinalsAre(r, x, Front(es));
      var built := Built(r, x.incident, Front(es));
      if Judge(r, x.incident, Last(es)).Admitted? {
        assert Front(built + [Build(x.incident, Last(es))]) == built;
      } else {
        assert built + [] == built;
        assert Finals(r, x, Front(es)) + [] == Finals(r, x, Front(es));
      }
    }
  }

  lemma CoresSnoc(hs: seq<Hypothesis>, h: Hypothesis)
    ensures multiset(Cores(hs + [h])) == multiset(Cores(hs)) + multiset{Core(h)}
  {
    assert Front(hs + [h]) == hs;
  }

  lemma SumSnoc(es: seq<OperationalEvent>, bag: OperationalEvent -> multiset<Hypothesis>)
    requires es != []
    ensures SumOf(es, bag, Union, multiset{}) == SumOf(Front(es), bag, Union, multiset{}) + bag(Last(es))
  {
  }

  lemma BagIs(r: Rules, x: Input, e: OperationalEvent)
    requires DistinctIds(x.events) && e in x.events
    ensures BagFor(r, x.incident, RollbacksIn(r, x))(e)
      == if Judge(r, x.incident, e).Admitted? then multiset{Core(Final(r, x, e))} else multiset{}
  {
    ConfirmedCore(r, x, e);
  }

  lemma CoresOne(hs: seq<Hypothesis>, c: bool, h: Hypothesis)
    ensures multiset(Cores(hs + One(c, h))) == multiset(Cores(hs)) + if c then multiset{Core(h)} else multiset{}
  {
    if c {
      CoresSnoc(hs, h);
    } else {
      assert hs + [] == hs;
    }
  }

  lemma FinalsStep(r: Rules, x: Input, es: seq<OperationalEvent>)
    requires es != []
    ensures multiset(Cores(Finals(r, x, es))) == multiset(Cores(Finals(r, x, Front(es))))
      + if Judge(r, x.incident, Last(es)).Admitted? then multiset{Core(Final(r, x, Last(es)))} else multiset{}
  {
    CoresOne(Finals(r, x, Front(es)), Judge(r, x.incident, Last(es)).Admitted?, Final(r, x, Last(es)));
  }

  lemma {:induction false} FinalCores(r: Rules, x: Input, es: seq<OperationalEvent>)
    requires DistinctIds(x.events) && forall e :: e in es ==> e in x.events
    ensures multiset(Cores(Finals(r, x, es))) == SumOf(es, BagFor(r, x.incident, RollbacksIn(r, x)), Union, multiset{})
  {
    if es != [] {
      assert es == Front(es) + [Last(es)];
      FinalCores(r, x, Front(es));
      SumSnoc(es, BagFor(r, x.incident, RollbacksIn(r, x)));
      BagIs(r, x, Last(es));
      FinalsStep(r, x, es);
    }
  }

  /** The hypotheses, rollback lists aside, are the same for any order of the events. */
  lemma HypothesesOrderFree(r: Rules, x: Input, y: Input)
    requires x.incident == y.incident && x.recovery == y.recovery && multiset(x.events) == multiset(y.events)
    requires DistinctIds(x.events) && DistinctIds(y.events)
    ensures multiset(Cores(Hypotheses(r, x))) == multiset(Cores(Hypotheses(r, y)))
  {
    assert forall e :: e in x.events <==> e in multiset(x.events);
    assert forall e :: e in y.events <==> e in multiset(y.events);
    assert RollbacksIn(r, x) == RollbacksIn(r, y);
    UnionMonoid();
    SumOrderFree(x.events, y.events, BagFor(r, x.incident, RollbacksIn(r, x)), Union, multiset{});
    FinalCores(r, x, x.events);
    FinalCores(r, y, y.events);
    FinalsAre(r, x, x.events);
    FinalsAre(r, y, y.events);
  }

  // ---- one order only ---------------------------------------------------------

  /** No two different hypotheses are equally far from the incident. */
  predicate NoTies(hs: seq<Hypothesis>) {
    forall h, g :: h in hs && g in hs && h.before == g.before ==> h == g
  }

  lemma SameFronts<T>(a: seq<T>, b: seq<T>)
    requires a != [] && b != [] && multiset(a) == multiset(b) && Last(a) == Last(b)
    ensures multiset(Front(a)) == multiset(Front(b))
  {
    assert a == Front(a) + [Last(a)] && b == Front(b) + [Last(b)];
    assert multiset(Front(a)) == multiset(a) - multiset{Last(a)};
    assert multiset(Front(b)) == multiset(b) - multiset{Last(b)};
  }

  lemma SameLast(a: seq<Hypothesis>, b: seq<Hypothesis>)
    requires Ranked(a) && Ranked(b) && multiset(a) == multiset(b) && NoTies(a)
    requires a != [] && b != []
    ensures Last(a) == Last(b)
  {
    assert Last(b) in multiset(a) && Last(a) in multiset(b);
    var i :| 0 <= i < |a| && a[i] == Last(b);
    var j :| 0 <= j < |b| && b[j] == Last(a);
  }

  /** Without ties there is one way to rank. */
  lemma {:induction false} OneRanking(a: seq<Hypothesis>, b: seq<Hypothesis>)
    requires Ranked(a) && Ranked(b) && multiset(a) == multiset(b) && NoTies(a)
    ensures a == b
    decreases |a|
  {
    assert |multiset(a)| == |a| && |multiset(b)| == |b|;
    if a != [] {
      SameLast(a, b);
      SameFronts(a, b);
      OneRanking(Front(a), Front(b));
      assert a == Front(a) + [Last(a)] && b == Front(b) + [Last(b)];
    }
  }

  lemma CoreRanked(hs: seq<Hypothesis>)
    requires Ranked(hs)
    ensures Ranked(Cores(hs))
  {
    forall i, j | 0 <= i < j < |hs| ensures !Weaker(Core(hs[i]), Core(hs[j])) {
      assert !Weaker(hs[i], hs[j]);
    }
  }

  lemma CoreFrom(hs: seq<Hypothesis>, core: Hypothesis) returns (h: Hypothesis)
    requires core in Cores(hs)
    ensures h in hs && core == Core(h)
  {
    var i :| 0 <= i < |Cores(hs)| && Cores(hs)[i] == core;
    h := hs[i];
  }

  lemma SameTies(hs: seq<Hypothesis>, gs: seq<Hypothesis>)
    requires NoTies(hs) && forall h :: h in gs ==> h in hs
    ensures NoTies(gs)
  {
  }

  lemma CoreNoTies(hs: seq<Hypothesis>)
    requires NoTies(hs)
    ensures NoTies(Cores(hs))
  {
    forall h, g | h in Cores(hs) && g in Cores(hs) && h.before == g.before ensures h == g {
      var h' := CoreFrom(hs, h);
      var g' := CoreFrom(hs, g);
    }
  }

  /** Ranked, the cores come in the same order. */
  lemma RankingsAgree(hs: seq<Hypothesis>, gs: seq<Hypothesis>)
    requires multiset(Cores(hs)) == multiset(Cores(gs)) && NoTies(hs)
    ensures Cores(Rank(hs)) == Cores(Rank(gs))
  {
    CoresOrderFree(Rank(hs), hs);
    CoresOrderFree(Rank(gs), gs);
    CoreRanked(Rank(hs));
    CoreRanked(Rank(gs));
    forall h ensures h in Rank(hs) <==> h in hs {
      RankKeeps(hs, h);
    }
    SameTies(hs, Rank(hs));
    CoreNoTies(Rank(hs));
    OneRanking(Cores(Rank(hs)), Cores(Rank(gs)));
  }

  /** Two outcomes that agree but for the lists of supporting rollbacks. */
  predicate SameOutcome(a: Outcome, b: Outcome) {
    && a.overall == b.overall
    && Cores(a.candidates) == Cores(b.candidates)
    && a.leading.Some? == b.leading.Some?
    && (a.leading.Some? ==> Core(a.leading.value) == Core(b.leading.value))
  }

  lemma ShortlistsAgree(r: Rules, a: seq<Hypothesis>, b: seq<Hypothesis>)
    requires Cores(a) == Cores(b)
    ensures Cores(Shortlist(r, a)) == Cores(Shortlist(r, b))
  {
    assert |a| == |Cores(a)| && |b| == |Cores(b)|;
    forall i | 0 <= i < |a| ensures Core(a[i]) == Core(b[i]) {
      assert Cores(a)[i] == Cores(b)[i];
    }
  }

  lemma CoresAt(a: seq<Hypothesis>, b: seq<Hypothesis>, i: nat)
    requires Cores(a) == Cores(b) && i < |a|
    ensures |a| == |b| && Core(a[i]) == Core(b[i]) && a[i].tier == b[i].tier
  {
    assert |a| == |Cores(a)| && |b| == |Cores(b)|;
    assert Cores(a)[i] == Cores(b)[i];
  }

  lemma LeadersAgree(a: seq<Hypothesis>, b: seq<Hypothesis>)
    requires Cores(a) == Cores(b)
    ensures |a| == |b| && LeaderIndex(a) == LeaderIndex(b)
  {
    assert |a| == |Cores(a)| && |b| == |Cores(b)|;
    var i, j := LeaderIndex(a), LeaderIndex(b);
    if i < |a| {
      CoresAt(a, b, i);
    }
    if j < |b| {
      CoresAt(a, b, j);
    }
  }

  lemma NumbersAgree(a: seq<Hypothesis>, b: seq<Hypothesis>)
    requires Cores(a) == Cores(b)
    ensures Cores(Numbered(a)) == Cores(Numbered(b))
  {
    LeadersAgree(a, b);
    forall i | 0 <= i < |a| ensures Core(Numbered(a)[i]) == Core(Numbered(b)[i]) {
      CoresAt(a, b, i);
    }
  }

  lemma OutcomesAgree(a: seq<Hypothesis>, b: seq<Hypothesis>)
    requires Cores(a) == Cores(b)
    ensures SameOutcome(OutcomeOf(a), OutcomeOf(b))
  {
    LeadersAgree(a, b);
    NumbersAgree(a, b);
    var i := LeaderIndex(a);
    if i < |a| {
      CoresAt(a, b, i);
      CoresAt(Numbered(a), Numbered(b), i);
    }
  }

  lemma DecisionsAgree(r: Rules, hs: seq<Hypothesis>, gs: seq<Hypothesis>)
    requires Cores(Rank(hs)) == Cores(Rank(gs))
    ensures SameOutcome(Decide(r, hs), Decide(r, gs))
  {
    ShortlistsAgree(r, Rank(hs), Rank(gs));
    OutcomesAgree(Shortlist(r, Rank(hs)), Shortlist(r, Rank(gs)));
  }

  /** No two candidates, of all the events, are at the same time. */
  predicate TimesDiffer(r: Rules, c: Case, es: seq<OperationalEvent>) {
    forall e, f :: e in es && f in es && Judge(r, c, e).Admitted? && Judge(r, c, f).Admitted? && e.at == f.at ==> e == f
  }

  lemma FinalBefore(r: Rules, x: Input, e: OperationalEvent)
    requires DistinctIds(x.events) && e in x.events
    ensures Final(r, x, e).before == x.incident.start - e.at
  {
    BuildTier(x.incident, e);
    FoundById(x.events, e);
    ConfirmRaises(Build(x.incident, e), e, Later(r, x.incident, x.events));
  }

  lemma FrontIn<T>(xs: seq<T>, x: T)
    requires xs != [] && x in Front(xs)
    ensures x in xs
  {
  }

  lemma {:induction false} FinalsFrom(r: Rules, x: Input, es: seq<OperationalEvent>,
                                      h: Hypothesis) returns (e: OperationalEvent)
    requires h in Finals(r, x, es)
    ensures e in es && Judge(r, x.incident, e).Admitted? && h == Final(r, x, e)
  {
    assert es != [];
    e := Last(es);
    assert e in es;
    if h !in One(Judge(r, x.incident, e).Admitted?, Final(r, x, e)) {
      e := FinalsFrom(r, x, Front(es), h);
      FrontIn(es, e);
    }
  }

  lemma TimesDifferNoTies(r: Rules, x: Input)
    requires DistinctIds(x.events) && TimesDiffer(r, x.incident, x.events)
    ensures NoTies(Hypotheses(r, x))
  {
    var hs := Hypotheses(r, x);
    FinalsAre(r, x, x.events);
    forall h, g | h in hs && g in hs && h.before == g.before ensures h == g {
      var e := FinalsFrom(r, x, x.events, h);
      var f := FinalsFrom(r, x, x.events, g);
      FinalBefore(r, x, e);
      FinalBefore(r, x, f);
    }
  }

  /** Permuting the events, when no two candidates are at the same time, changes neither the
      ranking, nor the leader, nor the overall tier. */
  lemma OutcomeOrderFree(r: Rules, x: Input, y: Input)
    requires x.incident == y.incident && x.recovery == y.recovery && multiset(x.events) == multiset(y.events)
    requires DistinctIds(x.events) && DistinctIds(y.events) && TimesDiffer(r, x.incident, x.events)
    ensures SameOutcome(Decide(r, Hypotheses(r, x)), Decide(r, Hypotheses(r, y)))
  {
    HypothesesOrderFree(r, x, y);
    TimesDifferNoTies(r, x);
    RankingsAgree(Hypotheses(r, x), Hypotheses(r, y));
    DecisionsAgree(r, Hypotheses(r, x), Hypotheses(r, y));
  }
}
