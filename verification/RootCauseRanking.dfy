/** What the ranking guarantees: a maximal leader, recovery that only strengthens, and an
    outcome that does not depend on the order of the events. */
module RootCauseRanking {
  import opened Lists
  import opened RootCause

  // ---- the leader -------------------------------------------------------------

  lemma RankedOrder(hs: seq<Hypothesis>, i: nat)
    requires Ranked(hs) && i < |hs|
    ensures Order(hs[i].tier) <= Order(hs[0].tier)
  {
    if i > 0 {
      assert !Weaker(hs[0], hs[i]);
    }
  }

  lemma RankKeeps(hs: seq<Hypothesis>, h: Hypothesis)
    ensures h in Rank(hs) <==> h in hs
  {
    assert h in Rank(hs) <==> h in multiset(Rank(hs));
    assert h in hs <==> h in multiset(hs);
  }

  lemma ShortRanked(r: Rules, hs: seq<Hypothesis>)
    ensures Ranked(Shortlist(r, Rank(hs)))
    ensures Shortlist(r, Rank(hs)) != [] <==> hs != []
    ensures hs != [] ==> Shortlist(r, Rank(hs))[0] == Rank(hs)[0]
  {
  }

  /** The strongest hypothesis is ranked first. */
  lemma FirstIsStrongest(r: Rules, hs: seq<Hypothesis>, h: Hypothesis)
    requires h in hs
    ensures var short := Shortlist(r, Rank(hs));
      short != [] && short[0] in hs && Order(h.tier) <= Order(short[0].tier)
  {
    ShortRanked(r, hs);
    RankKeeps(hs, h);
    var i :| 0 <= i < |Rank(hs)| && Rank(hs)[i] == h;
    RankedOrder(Rank(hs), i);
    RankKeeps(hs, Rank(hs)[0]);
  }

  lemma LeaderOf(short: seq<Hypothesis>)
    requires Ranked(short)
    ensures LeaderIndex(short) == if short != [] && Convincing(short[0].tier) then 0 else |short|
  {
    var i := LeaderIndex(short);
    if i < |short| {
      RankedOrder(short, i);
    }
  }

  lemma LeaderFirst(r: Rules, hs: seq<Hypothesis>)
    ensures var short := Shortlist(r, Rank(hs));
      LeaderIndex(short) == if short != [] && Convincing(short[0].tier) then 0 else |short|
  {
    ShortRanked(r, hs);
    LeaderOf(Shortlist(r, Rank(hs)));
  }

  lemma StrongestOf(r: Rules, hs: seq<Hypothesis>) returns (h: Hypothesis)
    requires Decide(r, hs).leading.Some?
    ensures h in hs && h.tier == Decide(r, hs).overall && Convincing(h.tier)
  {
    h := Shortlist(r, Rank(hs))[LeaderIndex(Shortlist(r, Rank(hs)))];
    assert h in Rank(hs) && h in multiset(Rank(hs));
  }

  /** There is a leader exactly when some hypothesis, before the list is cut short, reaches
      moderate evidence. */
  lemma LeaderIff(r: Rules, hs: seq<Hypothesis>)
    ensures Decide(r, hs).leading.Some? <==> exists h :: h in hs && Convincing(h.tier)
  {
    if Decide(r, hs).leading.Some? {
      var h := StrongestOf(r, hs);
    }
    forall h | h in hs && Convincing(h.tier) ensures Decide(r, hs).leading.Some? {
      FirstIsStrongest(r, hs, h);
      LeaderFirst(r, hs);
    }
  }

  /** It is then ranked first, alone leads, has the overall tier, and no hypothesis has a
      higher one; without a leader the evidence is insufficient. */
  lemma LeaderIsMaximal(r: Rules, hs: seq<Hypothesis>, h: Hypothesis)
    requires h in hs
    ensures var out := Decide(r, hs);
      && (out.leading.Some? ==>
            && out.leading.value == out.candidates[0] && out.leading.value.rank == 1
            && out.overall == out.leading.value.tier && Order(h.tier) <= Order(out.overall))
      && (out.leading.None? ==> out.overall == Insufficient && !Convincing(h.tier))
      && (forall i :: 0 <= i < |out.candidates| ==>
            out.candidates[i].rank == i + 1 && (out.candidates[i].isLeading <==> i == 0 && out.leading.Some?))
  {
    LeaderFirst(r, hs);
    FirstIsStrongest(r, hs, h);
  }

  // ---- recovery ---------------------------------------------------------------

  /** Confirming adds supports of its own kind and never lowers the tier. */
  lemma {:induction false} ConfirmRaises(h: Hypothesis, e: OperationalEvent, rollbacks: seq<OperationalEvent>)
    requires h.tier == TierOf(h.supporting, false)
    ensures var g := Confirm(h, e, rollbacks);
      && Order(g.tier) >= Order(h.tier)
      && StrongCodes(g.supporting) == StrongCodes(h.supporting)
      && g.(tier := h.tier, supporting := h.supporting) == h
      && (Counterfactual in g.supporting <==> Counterfactual in h.supporting)
      && g.tier == TierOf(h.supporting, exists b :: b in rollbacks && Reverts(b, e))
  {
    if rollbacks != [] {
      ConfirmRaises(h, e, Front(rollbacks));
      assert rollbacks == Front(rollbacks) + [Last(rollbacks)];
      if Reverts(Last(rollbacks), e) {
        assert Last(rollbacks) in rollbacks;
      }
    }
  }

  /** The supports it adds name the rollbacks that revert the change, and no others. */
  lemma {:induction false} ConfirmAdds(h: Hypothesis, e: OperationalEvent, rollbacks: seq<OperationalEvent>, x: Support)
    ensures x in Confirm(h, e, rollbacks).supporting <==>
      x in h.supporting || exists b :: b in rollbacks && Reverts(b, e) && x == RollbackRecovery(b.id)
  {
    if rollbacks != [] {
      ConfirmAdds(h, e, Front(rollbacks), x);
      assert rollbacks == Front(rollbacks) + [Last(rollbacks)];
    }
  }

  lemma {:induction false} BuiltTiers(r: Rules, c: Case, es: seq<OperationalEvent>)
    ensures forall h :: h in Built(r, c, es) ==> h.tier == TierOf(h.supporting, false)
  {
    if es != [] {
      BuiltTiers(r, c, Front(es));
    }
  }

  /** Pointwise no weaker. */
  predicate Raised(hs: seq<Hypothesis>, gs: seq<Hypothesis>) {
    && |gs| == |hs|
    && forall i :: 0 <= i < |hs| ==> gs[i].event == hs[i].event && Order(gs[i].tier) >= Order(hs[i].tier)
  }

  lemma RaisedOutcome(r: Rules, hs: seq<Hypothesis>, gs: seq<Hypothesis>)
    requires Raised(hs, gs)
    ensures Order(Decide(r, gs).overall) >= Order(Decide(r, hs).overall)
  {
    if Decide(r, hs).leading.Some? {
      var h := StrongestOf(r, hs);
      var i :| 0 <= i < |hs| && hs[i] == h;
      OutcomeAtLeast(r, gs, gs[i]);
    } else {
      assert Decide(r, hs).overall == Insufficient;
    }
  }

  lemma OutcomeAtLeast(r: Rules, hs: seq<Hypothesis>, h: Hypothesis)
    requires h in hs && Convincing(h.tier)
    ensures Order(Decide(r, hs).overall) >= Order(h.tier)
  {
    LeaderIff(r, hs);
    LeaderIsMaximal(r, hs, h);
  }

  /** Confirmed recovery lowers no hypothesis's tier, and not the overall one. */
  lemma RecoveryNeverLowers(r: Rules, c: Case, es: seq<OperationalEvent>)
    ensures Raised(Hypotheses(r, Input(c, es, false)), Hypotheses(r, Input(c, es, true)))
    ensures Order(Decide(r, Hypotheses(r, Input(c, es, true))).overall)
      >= Order(Decide(r, Hypotheses(r, Input(c, es, false))).overall)
  {
    var hs, gs := Hypotheses(r, Input(c, es, false)), Hypotheses(r, Input(c, es, true));
    BuiltTiers(r, c, es);
    forall i | 0 <= i < |hs| ensures gs[i].event == hs[i].event && Order(gs[i].tier) >= Order(hs[i].tier) {
      ConfirmFromRaises(hs[i], es, Later(r, c, es));
    }
    RaisedOutcome(r, hs, gs);
  }

  lemma ConfirmFromRaises(h: Hypothesis, es: seq<OperationalEvent>, rollbacks: seq<OperationalEvent>)
    requires h.tier == TierOf(h.supporting, false)
    ensures ConfirmFrom(h, es, rollbacks).event == h.event && Order(ConfirmFrom(h, es, rollbacks).tier) >= Order(h.tier)
  {
    var i := ById(es, h.event.id);
    if i < |es| {
      ConfirmRaises(h, es[i], rollbacks);
    }
  }
}
