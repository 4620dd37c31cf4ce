/** Which operational changes the analysis holds responsible, in terms of the times, services,
    versions, regions and methods of the events. */
module Changes {
  import opened Lists
  import opened Options
  import opened RootCause
  import opened RootCauseRanking

  // ---- what an event has to do with an incident ---------------------------------

  predicate RegionIs(c: Case, v: string) {
    v != "" && c.analysis.best.Some? && c.analysis.best.value.segment.region == Some(v)
  }

  predicate MethodIs(c: Case, v: string) {
    v != "" && c.analysis.best.Some? && c.analysis.best.value.segment.paymentMethod == Some(v)
  }

  predicate VersionIs(c: Case, v: string) {
    v != "" && c.analysis.best.Some? && c.analysis.best.value.segment.version == Some(v)
  }

  /** The change was made, but not where the errors are. */
  ghost predicate Elsewhere(c: Case, e: OperationalEvent) {
    || (e.regions != [] && exists v :: RegionIs(c, v) && v !in e.regions)
    || (e.methods != [] && exists v :: MethodIs(c, v) && v !in e.methods)
  }

  predicate Timely(r: Rules, c: Case, e: OperationalEvent) {
    c.start - r.lookback <= e.at <= c.start + r.skew
  }

  predicate Connected(e: OperationalEvent) {
    e.service in {"PAYMENT_GATEWAY", "TOKEN_SERVICE", "NETWORK_CONNECTOR"}
  }

  ghost predicate MayExplain(r: Rules, c: Case, e: OperationalEvent) {
    Timely(r, c, e) && Connected(e) && !Elsewhere(c, e)
  }

  /** The version the event names as new, or else as the one switched to. */
  predicate Names(e: OperationalEvent, v: string) {
    e.newVersion == Some(v) || (e.newVersion in {None, Some("")} && e.toVersion == Some(v))
  }

  ghost predicate BringsVersion(c: Case, e: OperationalEvent) {
    e.service == "PAYMENT_GATEWAY" && exists v :: VersionIs(c, v) && Names(e, v)
  }

  predicate Hits(e: OperationalEvent, region: string, paymentMethod: string) {
    region in e.regions && paymentMethod in e.methods
  }

  ghost predicate HitsScope(c: Case, e: OperationalEvent) {
    exists v, m :: RegionIs(c, v) && MethodIs(c, m) && Hits(e, v, m)
  }

  predicate CausesError(c: Case, e: OperationalEvent) {
    && c.analysis.signature == Some("TOKEN_VALIDATION_FAILED")
    && e.service in {"PAYMENT_GATEWAY", "TOKEN_SERVICE"}
    && exists s :: s in e.categories && s in {"TOKEN_VALIDATION", "TOKEN_CONFIGURATION", "TOKEN_KEY_MANAGEMENT"}
  }

  /** The affected version stands out against the rest of the traffic. */
  ghost predicate StandsOut(c: Case, e: OperationalEvent) {
    BringsVersion(c, e) && c.analysis.best.value.concentrated
  }

  lemma ScopeMeans(c: Case, e: OperationalEvent)
    ensures ScopeOf(SegmentOf(c.analysis), e).DisjointScope? <==> Elsewhere(c, e)
    ensures Aligned(ScopeOf(SegmentOf(c.analysis), e)) <==> HitsScope(c, e)
  {
    var s := SegmentOf(c.analysis);
    assert Given(s.region) ==> RegionIs(c, s.region.value);
    assert Given(s.paymentMethod) ==> MethodIs(c, s.paymentMethod.value);
    assert forall v :: RegionIs(c, v) ==> s.region == Some(v);
    assert forall v :: MethodIs(c, v) ==> s.paymentMethod == Some(v);
    if Aligned(ScopeOf(s, e)) {
      assert Hits(e, s.region.value, s.paymentMethod.value);
    }
  }

  lemma VersionMeans(c: Case, e: OperationalEvent)
    requires Connected(e)
    ensures VersionOf(SegmentOf(c.analysis).version, e, ServiceOf(e.service)).VersionMatches? <==> BringsVersion(c, e)
  {
    var s := SegmentOf(c.analysis);
    assert Given(s.version) ==> VersionIs(c, s.version.value);
    assert forall v :: VersionIs(c, v) ==> s.version == Some(v);
  }

  lemma ErrorMeans(c: Case, e: OperationalEvent)
    ensures ErrorOf(c.analysis.signature, e).ErrorMatches? <==> CausesError(c, e)
  {
  }

  // ---- admission ----------------------------------------------------------------

  /** Why an event is no candidate. */
  ghost predicate Turned(r: Rules, c: Case, e: OperationalEvent, reason: Reason) {
    match reason
    case AfterIncident => e.at > c.start + r.skew && !e.kind.Rollback?
    case OutsideLookback => e.at < c.start - r.lookback
    case OutsideDependencies => Timely(r, c, e) && !Connected(e)
    case ScopesDisjoint => Timely(r, c, e) && Connected(e) && Elsewhere(c, e)
  }

  predicate LaterRollbackOf(r: Rules, c: Case, e: OperationalEvent) { e.kind.Rollback? && e.at > c.start + r.skew }

  lemma Judged(r: Rules, c: Case, e: OperationalEvent)
    ensures Judge(r, c, e).Admitted? <==> MayExplain(r, c, e)
    ensures Judge(r, c, e).LaterRollback? <==> LaterRollbackOf(r, c, e)
    ensures forall why :: Turned(r, c, e, why) <==> Judge(r, c, e) == Declined(why, why != OutsideLookback)
  {
    ScopeMeans(c, e);
  }

  /** The rejections are those of the events turned down, each with its reason; only what is
      outside the lookback is rejected softly. */
  lemma {:induction false} RejectedIff(r: Rules, c: Case, es: seq<OperationalEvent>, x: Rejection)
    ensures x in Rejected(r, c, es) <==>
      exists e :: e in es && x == Rejection(e.id, x.reason, x.reason != OutsideLookback) && Turned(r, c, e, x.reason)
  {
    if es != [] {
      assert es == Front(es) + [Last(es)];
      RejectedIff(r, c, Front(es), x);
      Judged(r, c, Last(es));
    }
  }

  // ---- evidence -----------------------------------------------------------------

  /** The case an event makes: its tier, what it matches, and how long before the incident. */
  datatype Profile = Profile(tier: Tier, version: bool, scope: bool, error: bool, contrast: bool, before: int)

  ghost function Points(c: Case, e: OperationalEvent): nat {
    (if BringsVersion(c, e) then 1 else 0) + (if HitsScope(c, e) then 1 else 0)
    + (if CausesError(c, e) then 1 else 0) + (if StandsOut(c, e) then 1 else 0)
  }

  /** All four make strong evidence, and so do two of them after a confirmed recovery. */
  ghost function TierFor(points: nat, reverted: bool): Tier {
    if points == 4 || (reverted && points >= 2) then Strong else if points >= 1 then Moderate else Weak
  }

  ghost function ProfileOf(c: Case, e: OperationalEvent, reverted: bool): Profile {
    Profile(TierFor(Points(c, e), reverted), BringsVersion(c, e), HitsScope(c, e), CausesError(c, e), StandsOut(c, e),
            c.start - e.at)
  }

  predicate Shows(h: Hypothesis, p: Profile) {
    && h.tier == p.tier && (h.version.VersionMatches? <==> p.version) && (Aligned(h.scope) <==> p.scope)
    && (h.error.ErrorMatches? <==> p.error) && (Counterfactual in h.supporting <==> p.contrast)
    && h.before == p.before
  }

  /** The supports that are present when these conditions hold. */
  predicate Has(supporting: seq<Support>, version: bool, scope: bool, error: bool, contrast: bool) {
    && (VersionMatch in supporting <==> version) && (ScopeAligned in supporting <==> scope)
    && (ErrorMatch in supporting <==> error) && (Counterfactual in supporting <==> contrast)
  }

  lemma SupportsHave(version: bool, scope: bool, error: bool, contrast: bool)
    ensures Has([ValidTiming, ServiceRelevant] + One(version, VersionMatch) + One(scope, ScopeAligned)
                + One(error, ErrorMatch) + One(contrast, Counterfactual), version, scope, error, contrast)
  {
  }

  lemma BuildFacts(c: Case, e: OperationalEvent)
    ensures var h := Build(c, e);
      && h.event == e && h.before == c.start - e.at && h.tier == TierOf(h.supporting, false)
      && h.version == VersionOf(SegmentOf(c.analysis).version, e, ServiceOf(e.service))
      && h.scope == ScopeOf(SegmentOf(c.analysis), e) && h.error == ErrorOf(c.analysis.signature, e)
      && Has(h.supporting, h.version.VersionMatches?, Aligned(h.scope), h.error.ErrorMatches?,
             c.analysis.best.Some? && c.analysis.best.value.concentrated && h.version.VersionMatches?)
  {
    var h := Build(c, e);
    SupportsHave(h.version.VersionMatches?, Aligned(h.scope), h.error.ErrorMatches?,
                 c.analysis.best.Some? && c.analysis.best.value.concentrated && h.version.VersionMatches?);
  }

  lemma BuildShows(c: Case, e: OperationalEvent)
    requires Connected(e)
    ensures Build(c, e).event == e && Shows(Build(c, e), ProfileOf(c, e, false))
    ensures StrongCodes(Build(c, e).supporting) == Points(c, e)
    ensures Build(c, e).tier == TierOf(Build(c, e).supporting, false)
  {
    BuildFacts(c, e);
    VersionMeans(c, e);
    ScopeMeans(c, e);
    ErrorMeans(c, e);
  }

  lemma {:induction false} BuiltIff(r: Rules, c: Case, es: seq<OperationalEvent>, h: Hypothesis)
    ensures h in Built(r, c, es) <==> exists e :: e in es && MayExplain(r, c, e) && h == Build(c, e)
  {
    if es != [] {
      assert es == Front(es) + [Last(es)];
      BuiltIff(r, c, Front(es), h);
      Judged(r, c, Last(es));
    }
  }

  lemma {:induction false} LaterIff(r: Rules, c: Case, es: seq<OperationalEvent>, b: OperationalEvent)
    ensures b in Later(r, c, es) <==> b in es && LaterRollbackOf(r, c, b)
  {
    if es != [] {
      assert es == Front(es) + [Last(es)];
      LaterIff(r, c, Front(es), b);
      Judged(r, c, Last(es));
    }
  }

  /** A later rollback that succeeded took back the version that e brought. */
  predicate TakesBack(r: Rules, c: Case, b: OperationalEvent, e: OperationalEvent) {
    && LaterRollbackOf(r, c, b) && b.succeeded
    && e.newVersion.Some? && e.newVersion.value != "" && b.fromVersion == e.newVersion
  }

  /** The first of the events with the id of e. */
  predicate Namesake(es: seq<OperationalEvent>, e: OperationalEvent, i: nat) {
    i < |es| && es[i].id == e.id && forall j :: 0 <= j < i ==> es[j].id != e.id
  }

  /** The recovery is confirmed, and the first event with e's id was taken back. */
  ghost predicate Reverted(r: Rules, x: Input, e: OperationalEvent) {
    && x.recovery
    && exists i: nat, b :: Namesake(x.events, e, i) && b in x.events && TakesBack(r, x.incident, b, x.events[i])
  }

  ghost function CaseOf(r: Rules, x: Input, e: OperationalEvent): Profile {
    ProfileOf(x.incident, e, Reverted(r, x, e))
  }

  predicate IsOf(h: Hypothesis, e: OperationalEvent, p: Profile) { h.event == e && Shows(h, p) }

  lemma NamesakeIs(es: seq<OperationalEvent>, e: OperationalEvent)
    requires e in es
    ensures forall i: nat :: Namesake(es, e, i) <==> i == ById(es, e.id)
  {
    var i :| 0 <= i < |es| && es[i] == e;
  }

  lemma RevertedIs(r: Rules, x: Input, e: OperationalEvent)
    requires e in x.events && x.recovery
    ensures ById(x.events, e.id) < |x.events|
    ensures Reverted(r, x, e) <==>
      exists b :: b in Later(r, x.incident, x.events) && Reverts(b, x.events[ById(x.events, e.id)])
  {
    NamesakeIs(x.events, e);
    var i := ById(x.events, e.id);
    assert Namesake(x.events, e, i);
    forall b ensures b in x.events && TakesBack(r, x.incident, b, x.events[i]) <==>
      b in Later(r, x.incident, x.events) && Reverts(b, x.events[i])
    {
      LaterIff(r, x.incident, x.events, b);
    }
  }

  /** What becomes of the hypothesis of e. */
  ghost function HypothesisFor(r: Rules, x: Input, e: OperationalEvent): Hypothesis {
    var h := Build(x.incident, e);
    if x.recovery then ConfirmFrom(h, x.events, Later(r, x.incident, x.events)) else h
  }

  lemma ConfirmedShows(h: Hypothesis, c: Case, e: OperationalEvent, first: OperationalEvent,
                       rollbacks: seq<OperationalEvent>)
    requires Shows(h, ProfileOf(c, e, false)) && StrongCodes(h.supporting) == Points(c, e)
    requires h.tier == TierOf(h.supporting, false)
    ensures Confirm(h, first, rollbacks).event == h.event
    ensures Shows(Confirm(h, first, rollbacks), ProfileOf(c, e, exists b :: b in rollbacks && Reverts(b, first)))
  {
    ConfirmRaises(h, first, rollbacks);
  }

  lemma HypothesisIs(r: Rules, x: Input, e: OperationalEvent)
    requires e in x.events && Connected(e)
    ensures IsOf(HypothesisFor(r, x, e), e, CaseOf(r, x, e))
  {
    BuildShows(x.incident, e);
    if x.recovery {
      RevertedIs(r, x, e);
      var first := x.events[ById(x.events, e.id)];
      ConfirmedShows(Build(x.incident, e), x.incident, e, first, Later(r, x.incident, x.events));
    }
  }

  lemma HypothesisBuilt(r: Rules, x: Input, i: nat)
    requires i < |Built(r, x.incident, x.events)|
    ensures var h, gs := Built(r, x.incident, x.events)[i], Hypotheses(r, x);
      && |gs| == |Built(r, x.incident, x.events)|
      && (h == Build(x.incident, h.event) ==> gs[i] == HypothesisFor(r, x, h.event))
  {
  }

  lemma HypothesisFrom(r: Rules, x: Input, g: Hypothesis) returns (e: OperationalEvent)
    requires g in Hypotheses(r, x)
    ensures e in x.events && MayExplain(r, x.incident, e) && g == HypothesisFor(r, x, e)
  {
    var built, gs := Built(r, x.incident, x.events), Hypotheses(r, x);
    var i :| 0 <= i < |gs| && gs[i] == g;
    if x.recovery {
      assert |gs| == |built|;
    }
    BuiltIff(r, x.incident, x.events, built[i]);
    e :| e in x.events && MayExplain(r, x.incident, e) && built[i] == Build(x.incident, e);
    assert built[i].event == e;
    HypothesisBuilt(r, x, i);
  }

  lemma HypothesisMade(r: Rules, x: Input, e: OperationalEvent)
    requires e in x.events && MayExplain(r, x.incident, e)
    ensures HypothesisFor(r, x, e) in Hypotheses(r, x)
  {
    var built := Built(r, x.incident, x.events);
    BuiltIff(r, x.incident, x.events, Build(x.incident, e));
    var i :| 0 <= i < |built| && built[i] == Build(x.incident, e);
    assert built[i].event == e;
    HypothesisBuilt(r, x, i);
  }

  /** The hypotheses are those of the events that may explain the incident, each making
      its case. */
  lemma EveryCaseMade(r: Rules, x: Input)
    ensures forall h :: h in Hypotheses(r, x) ==>
      h.event in x.events && MayExplain(r, x.incident, h.event) && IsOf(h, h.event, CaseOf(r, x, h.event))
    ensures forall e :: e in x.events && MayExplain(r, x.incident, e) ==>
      exists h :: h in Hypotheses(r, x) && IsOf(h, e, CaseOf(r, x, e))
  {
    forall h | h in Hypotheses(r, x)
      ensures h.event in x.events && MayExplain(r, x.incident, h.event) && IsOf(h, h.event, CaseOf(r, x, h.event))
    {
      var e := HypothesisFrom(r, x, h);
      HypothesisIs(r, x, e);
    }
    forall e | e in x.events && MayExplain(r, x.incident, e)
      ensures exists h :: h in Hypotheses(r, x) && IsOf(h, e, CaseOf(r, x, e))
    {
      HypothesisMade(r, x, e);
      HypothesisIs(r, x, e);
    }
  }

  // ---- doubts and gaps ------------------------------------------------------------

  ghost predicate VersionKnown(c: Case) { exists v :: VersionIs(c, v) }

  predicate NamesVersion(e: OperationalEvent) {
    (e.newVersion.Some? && e.newVersion.value != "") || (e.toVersion.Some? && e.toVersion.value != "")
  }

  ghost predicate ScopeKnown(c: Case, e: OperationalEvent) {
    ((exists v :: RegionIs(c, v)) || (exists v :: MethodIs(c, v))) && (e.regions != [] || e.methods != [])
  }

  /** The signature is a known one, and unless the service is unrelated to it the event says
      what was changed. */
  predicate ErrorKnown(c: Case, e: OperationalEvent) {
    && c.analysis.signature == Some("TOKEN_VALIDATION_FAILED")
    && (e.service in {"PAYMENT_GATEWAY", "TOKEN_SERVICE"} ==> e.categories != [])
  }

  /** What is held against the event: what is known and does not match.  What is missing: what
      is not known; the version of a dependency is no matter. */
  ghost predicate Weighed(c: Case, e: OperationalEvent, h: Hypothesis) {
    var direct := e.service == "PAYMENT_GATEWAY";
    var version, scope := VersionKnown(c) && NamesVersion(e), ScopeKnown(c, e);
    && (VersionMismatch in h.contradictory <==> direct && version && !BringsVersion(c, e))
    && (PartialAlignment in h.contradictory <==> scope && !HitsScope(c, e))
    && (ErrorMismatch in h.contradictory <==> ErrorKnown(c, e) && !CausesError(c, e))
    && (NoVersion in h.missing <==> direct && !version)
    && (NoScope in h.missing <==> !scope)
    && (NoError in h.missing <==> !ErrorKnown(c, e))
  }

  lemma VersionWeighed(c: Case, e: OperationalEvent)
    requires Connected(e)
    ensures var a := VersionOf(SegmentOf(c.analysis).version, e, ServiceOf(e.service));
      var known := VersionKnown(c) && NamesVersion(e);
      && (a.VersionDiffers? <==> e.service == "PAYMENT_GATEWAY" && known && !BringsVersion(c, e))
      && (a.VersionUnknown? <==> e.service == "PAYMENT_GATEWAY" && !known)
  {
    var s := SegmentOf(c.analysis);
    VersionMeans(c, e);
    assert Given(s.version) ==> VersionIs(c, s.version.value);
    assert forall v :: VersionIs(c, v) ==> s.version == Some(v);
  }

  lemma ScopeWeighed(c: Case, e: OperationalEvent)
    requires !Elsewhere(c, e)
    ensures var a := ScopeOf(SegmentOf(c.analysis), e);
      && (a.PartialScope? <==> ScopeKnown(c, e) && !HitsScope(c, e))
      && (Aligned(a) || a.PartialScope? <==> ScopeKnown(c, e))
  {
    var s := SegmentOf(c.analysis);
    ScopeMeans(c, e);
    assert Given(s.region) ==> RegionIs(c, s.region.value);
    assert Given(s.paymentMethod) ==> MethodIs(c, s.paymentMethod.value);
    assert forall v :: RegionIs(c, v) ==> s.region == Some(v);
    assert forall v :: MethodIs(c, v) ==> s.paymentMethod == Some(v);
  }

  lemma DoubtsListed(version: bool, scope: bool, error: bool)
    ensures var ds := One(version, VersionMismatch) + One(scope, PartialAlignment) + One(error, ErrorMismatch);
      (VersionMismatch in ds <==> version) && (PartialAlignment in ds <==> scope) && (ErrorMismatch in ds <==> error)
    ensures var gs := One(version, NoVersion) + One(scope, NoScope) + One(error, NoError);
      (NoVersion in gs <==> version) && (NoScope in gs <==> scope) && (NoError in gs <==> error)
  {
  }

  lemma BuildLists(c: Case, e: OperationalEvent)
    ensures var h := Build(c, e);
      && h.contradictory == One(h.version.VersionDiffers?, VersionMismatch)
                            + One(h.scope.PartialScope?, PartialAlignment) + One(h.error.ErrorDiffers?, ErrorMismatch)
      && h.missing == One(h.version.VersionUnknown?, NoVersion)
                      + One(!Aligned(h.scope) && !h.scope.PartialScope?, NoScope) + One(h.error.ErrorUnknown?, NoError)
      && (forall id :: RollbackRecovery(id) !in h.supporting)
  {
  }

  lemma ErrorWeighed(c: Case, e: OperationalEvent)
    ensures var a := ErrorOf(c.analysis.signature, e);
      && (a.ErrorDiffers? <==> ErrorKnown(c, e) && !CausesError(c, e))
      && (a.ErrorUnknown? <==> !ErrorKnown(c, e))
  {
  }

  lemma BuildWeighed(r: Rules, c: Case, e: OperationalEvent)
    requires MayExplain(r, c, e)
    ensures Weighed(c, e, Build(c, e))
  {
    var h := Build(c, e);
    BuildFacts(c, e);
    BuildLists(c, e);
    VersionWeighed(c, e);
    ScopeWeighed(c, e);
    ErrorWeighed(c, e);
    DoubtsListed(h.version.VersionDiffers?, h.scope.PartialScope?, h.error.ErrorDiffers?);
    DoubtsListed(h.version.VersionUnknown?, !Aligned(h.scope) && !h.scope.PartialScope?, h.error.ErrorUnknown?);
  }

  lemma ConfirmedSame(r: Rules, x: Input, e: OperationalEvent)
    requires e in x.events && Connected(e)
    ensures var h, g := Build(x.incident, e), HypothesisFor(r, x, e);
      g.contradictory == h.contradictory && g.missing == h.missing
  {
    BuildShows(x.incident, e);
    if x.recovery {
      NamesakeIs(x.events, e);
      ConfirmRaises(Build(x.incident, e), x.events[ById(x.events, e.id)], Later(r, x.incident, x.events));
    }
  }

  /** Every hypothesis names what speaks against its event and what is missing, ... */
  lemma EveryDoubtNamed(r: Rules, x: Input, h: Hypothesis)
    requires h in Hypotheses(r, x)
    ensures Weighed(x.incident, h.event, h)
  {
    var e := HypothesisFrom(r, x, h);
    BuildWeighed(r, x.incident, e);
    ConfirmedSame(r, x, e);
    HypothesisIs(r, x, e);
  }

  /** A later rollback of this id took back the first event with e's id. */
  ghost predicate RevertedBy(r: Rules, x: Input, e: OperationalEvent, id: string) {
    exists i: nat, b ::
      Namesake(x.events, e, i) && b in x.events && b.id == id && TakesBack(r, x.incident, b, x.events[i])
  }

  lemma RevertsIff(r: Rules, c: Case, es: seq<OperationalEvent>, b: OperationalEvent, e: OperationalEvent)
    ensures b in Later(r, c, es) && Reverts(b, e) <==> b in es && TakesBack(r, c, b, e)
  {
    LaterIff(r, c, es, b);
  }

  lemma RollbackNamed(r: Rules, x: Input, e: OperationalEvent, id: string)
    requires e in x.events && x.recovery
    ensures RollbackRecovery(id) in HypothesisFor(r, x, e).supporting <==> RevertedBy(r, x, e, id)
  {
    var i, rollbacks := ById(x.events, e.id), Later(r, x.incident, x.events);
    NamesakeIs(x.events, e);
    BuildLists(x.incident, e);
    ConfirmAdds(Build(x.incident, e), x.events[i], rollbacks, RollbackRecovery(id));
    forall b
      ensures b in rollbacks && Reverts(b, x.events[i]) <==> b in x.events && TakesBack(r, x.incident, b, x.events[i])
    {
      RevertsIff(r, x.incident, x.events, b, x.events[i]);
    }
    assert Namesake(x.events, e, i);
  }

  /** ... and, when the recovery is confirmed, the later rollbacks that took the change back. */
  lemma EveryRollbackNamed(r: Rules, x: Input, h: Hypothesis, id: string)
    requires h in Hypotheses(r, x)
    ensures RollbackRecovery(id) in h.supporting <==> x.recovery && RevertedBy(r, x, h.event, id)
  {
    var e := HypothesisFrom(r, x, h);
    HypothesisIs(r, x, e);
    if x.recovery {
      RollbackNamed(r, x, e, id);
    } else {
      BuildLists(x.incident, e);
    }
  }

  // ---- the leader ---------------------------------------------------------------

  /** Some change matches the version, the scope or the error of the incident. */
  ghost predicate Explained(r: Rules, x: Input) {
    exists e :: e in x.events && MayExplain(r, x.incident, e)
      && (BringsVersion(x.incident, e) || HitsScope(x.incident, e) || CausesError(x.incident, e))
  }

  lemma ConvincingIff(r: Rules, x: Input, e: OperationalEvent)
    ensures Convincing(CaseOf(r, x, e).tier) <==>
      BringsVersion(x.incident, e) || HitsScope(x.incident, e) || CausesError(x.incident, e)
  {
  }

  /** There is a leader exactly when some event in time, on the payment gateway or what it
      depends on, and not made elsewhere, matches the incident in one of these. */
  lemma LeaderExplains(r: Rules, x: Input)
    ensures Decide(r, Hypotheses(r, x)).leading.Some? <==> Explained(r, x)
  {
    EveryCaseMade(r, x);
    LeaderIff(r, Hypotheses(r, x));
    forall e ensures Convincing(CaseOf(r, x, e).tier) <==>
      BringsVersion(x.incident, e) || HitsScope(x.incident, e) || CausesError(x.incident, e)
    {
      ConvincingIff(r, x, e);
    }
  }

  /** A lesser case: decided by the tier, then version, scope, error, contrast, and then the
      longer time before the incident. */
  predicate Lesser(p: Profile, q: Profile) {
    if p.tier != q.tier then Order(p.tier) < Order(q.tier)
    else if p.version != q.version then q.version
    else if p.scope != q.scope then q.scope
    else if p.error != q.error then q.error
    else if p.contrast != q.contrast then q.contrast
    else p.before > q.before
  }

  function WeightOf(p: Profile): nat {
    16 * Order(p.tier) + 8 * Bit(p.version) + 4 * Bit(p.scope) + 2 * Bit(p.error) + Bit(p.contrast)
  }

  lemma LesserByWeight(p: Profile, q: Profile)
    ensures Lesser(p, q) <==> WeightOf(p) < WeightOf(q) || (WeightOf(p) == WeightOf(q) && p.before > q.before)
  {
  }

  lemma WeakerIsLesser(h: Hypothesis, g: Hypothesis, p: Profile, q: Profile)
    requires Shows(h, p) && Shows(g, q)
    ensures Weaker(h, g) <==> Lesser(p, q)
  {
    assert Weight(h) == WeightOf(p) && Weight(g) == WeightOf(q);
    LesserByWeight(p, q);
  }

  lemma RankedNoLesser(hs: seq<Hypothesis>, i: nat, k: nat, p: Profile, q: Profile)
    requires Ranked(hs) && i <= k < |hs| && Shows(hs[i], p) && Shows(hs[k], q)
    ensures !Lesser(p, q)
  {
    WeakerIsLesser(hs[i], hs[k], p, q);
  }

  lemma OutcomeLists(short: seq<Hypothesis>, i: nat)
    requires i < |OutcomeOf(short).candidates|
    ensures i < |short|
    ensures OutcomeOf(short).candidates[i] == short[i].(rank := i + 1, isLeading := i == LeaderIndex(short))
  {
  }

  lemma CandidateFrom(r: Rules, hs: seq<Hypothesis>, i: nat)
    requires i < |Decide(r, hs).candidates|
    ensures i < |Rank(hs)| && Rank(hs)[i] in hs
    ensures Decide(r, hs).candidates[i].event == Rank(hs)[i].event
    ensures forall p :: Shows(Decide(r, hs).candidates[i], p) <==> Shows(Rank(hs)[i], p)
  {
    OutcomeLists(Shortlist(r, Rank(hs)), i);
    RankKeeps(hs, Rank(hs)[i]);
  }

  /** How many of the events may explain the incident. */
  ghost function Explaining(r: Rules, c: Case, es: seq<OperationalEvent>): nat {
    if es == [] then 0 else Explaining(r, c, Front(es)) + if MayExplain(r, c, Last(es)) then 1 else 0
  }

  lemma {:induction false} BuiltCount(r: Rules, c: Case, es: seq<OperationalEvent>)
    ensures |Built(r, c, es)| == Explaining(r, c, es)
  {
    if es != [] {
      BuiltCount(r, c, Front(es));
      Judged(r, c, Last(es));
    }
  }

  /** The list has as many of them as fit. */
  lemma CandidateCount(r: Rules, x: Input)
    ensures var n := Explaining(r, x.incident, x.events);
      |Decide(r, Hypotheses(r, x)).candidates| == if n < r.shortlist then n else r.shortlist
  {
    BuiltCount(r, x.incident, x.events);
  }

  /** The list makes the cases of its events, ... */
  lemma CandidateMakesCase(r: Rules, x: Input, i: nat)
    requires i < |Decide(r, Hypotheses(r, x)).candidates|
    ensures var h := Decide(r, Hypotheses(r, x)).candidates[i];
      h.event in x.events && MayExplain(r, x.incident, h.event) && Shows(h, CaseOf(r, x, h.event))
  {
    EveryCaseMade(r, x);
    CandidateFrom(r, Hypotheses(r, x), i);
  }

  lemma RankOf(r: Rules, x: Input, e: OperationalEvent) returns (k: nat)
    requires e in x.events && MayExplain(r, x.incident, e)
    ensures k < |Rank(Hypotheses(r, x))| && IsOf(Rank(Hypotheses(r, x))[k], e, CaseOf(r, x, e))
  {
    var hs := Hypotheses(r, x);
    EveryCaseMade(r, x);
    var h :| h in hs && IsOf(h, e, CaseOf(r, x, e));
    RankKeeps(hs, h);
    k :| 0 <= k < |Rank(hs)| && Rank(hs)[k] == h;
  }

  /** ... strongest first, and no event outside it or later in it makes a better one. */
  lemma NoBetterCase(r: Rules, x: Input, i: nat, e: OperationalEvent)
    requires i < |Decide(r, Hypotheses(r, x)).candidates| && e in x.events && MayExplain(r, x.incident, e)
    requires forall j :: 0 <= j < i ==> Decide(r, Hypotheses(r, x)).candidates[j].event != e
    ensures !Lesser(CaseOf(r, x, Decide(r, Hypotheses(r, x)).candidates[i].event), CaseOf(r, x, e))
  {
    var hs := Hypotheses(r, x);
    EveryCaseMade(r, x);
    CandidateFrom(r, hs, i);
    var k := RankOf(r, x, e);
    if k < i {
      CandidateFrom(r, hs, k);
    } else {
      RankedNoLesser(Rank(hs), i, k, CaseOf(r, x, Rank(hs)[i].event), CaseOf(r, x, e));
    }
  }
}
