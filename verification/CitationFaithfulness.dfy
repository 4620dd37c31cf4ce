/** What the numbering of citations guarantees. */
module CitationFaithfulness {
  import opened Lists
  import opened Options
  import opened Citations

  /** What a reader takes a card to stand for. */
  function Stands(card: Card): Citation {
    match card
    case EvidenceCard(_, id, _, _, _, package, version) => Evidence(id, package, version)
    case RunbookCard(_, id, version, section, _, _) => Runbook(id, version, section)
  }

  lemma {:induction false} CitedFrom(ps: seq<Point>, i: nat, c: Citation)
    requires i < |ps| && c in ps[i].citations
    ensures c in Cited(ps)
  {
    if i < |ps| - 1 {
      CitedFrom(Front(ps), i, c);
    }
  }

  lemma {:induction false} CitedByCheck(cs: seq<Check>, i: nat, c: Citation)
    requires i < |cs| && c in cs[i].citations
    ensures c in CitedByChecks(cs)
  {
    if i < |cs| - 1 {
      CitedByCheck(Front(cs), i, c);
    }
  }

  /** Two citations share a number exactly when they are the same. */
  lemma NumberIdentifies(ks: seq<Citation>, c: Citation, c': Citation)
    requires c in ks && c' in ks
    ensures NumberOf(ks, c) == NumberOf(ks, c') <==> c == c'
  {
  }

  /** Every number shown selects the card of the citation it stands for. */
  predicate Selects(ctx: Context, cards: seq<Card>, number: nat, c: Citation) {
    1 <= number <= |cards| && cards[number - 1] == CardOf(ctx, c, number)
  }

  predicate PointsSelect(ctx: Context, cards: seq<Card>, shown: seq<ShownPoint>, ps: seq<Point>) {
    && |shown| == |ps|
    && forall i :: 0 <= i < |ps| ==>
         && shown[i].text == ps[i].text && |shown[i].numbers| == |ps[i].citations|
         && forall k :: 0 <= k < |ps[i].citations| ==> Selects(ctx, cards, shown[i].numbers[k], ps[i].citations[k])
  }

  predicate ChecksSelect(ctx: Context, cards: seq<Card>, shown: seq<ShownPoint>, cs: seq<Check>) {
    && |shown| == |cs|
    && forall i :: 0 <= i < |cs| ==>
         && shown[i].text == cs[i].title && |shown[i].numbers| == |cs[i].citations|
         && forall k :: 0 <= k < |cs[i].citations| ==> Selects(ctx, cards, shown[i].numbers[k], cs[i].citations[k])
  }

  predicate Within(cs: seq<Citation>, ks: seq<Citation>) {
    forall c :: c in cs ==> c in ks
  }

  lemma PointsSelected(ctx: Context, ks: seq<Citation>, ps: seq<Point>)
    requires Within(Cited(ps), ks)
    ensures PointsSelect(ctx, Cards(ctx, ks), ShowPoints(ks, ps), ps)
  {
    forall i, k | 0 <= i < |ps| && 0 <= k < |ps[i].citations|
      ensures Selects(ctx, Cards(ctx, ks), ShowPoints(ks, ps)[i].numbers[k], ps[i].citations[k])
    {
      CitedFrom(ps, i, ps[i].citations[k]);
    }
  }

  lemma ChecksSelected(ctx: Context, ks: seq<Citation>, cs: seq<Check>)
    requires Within(CitedByChecks(cs), ks)
    ensures ChecksSelect(ctx, Cards(ctx, ks), ShowChecks(ks, cs), cs)
  {
    forall i, k | 0 <= i < |cs| && 0 <= k < |cs[i].citations|
      ensures Selects(ctx, Cards(ctx, ks), ShowChecks(ks, cs)[i].numbers[k], cs[i].citations[k])
    {
      CitedByCheck(cs, i, cs[i].citations[k]);
    }
  }

  lemma OrderedParts(d: Draft)
    ensures var ks := Keys(Ordered(d));
      && Within(Cited(d.supporting), ks) && Within(Cited(d.contradictory), ks)
      && Within(Cited(d.unknown), ks) && Within(CitedByChecks(d.checks), ks)
  {
  }

  /** The answer's cards are numbered one to n, and every number on a point or check
      selects the citation made there. */
  predicate Faithful(a: Answer, d: Draft, ctx: Context) {
    && Consecutive(a.citations)
    && PointsSelect(ctx, a.citations, a.supporting, d.supporting)
    && PointsSelect(ctx, a.citations, a.contradictory, d.contradictory)
    && PointsSelect(ctx, a.citations, a.unknown, d.unknown)
    && ChecksSelect(ctx, a.citations, a.checks, d.checks)
  }

  lemma NumberingIsFaithful(d: Draft, ctx: Context)
    ensures Faithful(Build(d, ctx), d, ctx)
  {
    var ks := Keys(Ordered(d));
    OrderedParts(d);
    PointsSelected(ctx, ks, d.supporting);
    PointsSelected(ctx, ks, d.contradictory);
    PointsSelected(ctx, ks, d.unknown);
    ChecksSelected(ctx, ks, d.checks);
  }

  lemma PointsRefer(ks: seq<Citation>, ps: seq<Point>)
    requires Within(Cited(ps), ks)
    ensures RefersWithin(ShowPoints(ks, ps), |ks|)
  {
    forall i, k | 0 <= i < |ps| && 0 <= k < |ps[i].citations| ensures 1 <= NumberOf(ks, ps[i].citations[k]) <= |ks| {
      CitedFrom(ps, i, ps[i].citations[k]);
    }
  }

  lemma ChecksRefer(ks: seq<Citation>, cs: seq<Check>)
    requires Within(CitedByChecks(cs), ks)
    ensures RefersWithin(ShowChecks(ks, cs), |ks|)
  {
    forall i, k | 0 <= i < |cs| && 0 <= k < |cs[i].citations| ensures 1 <= NumberOf(ks, cs[i].citations[k]) <= |ks| {
      CitedByCheck(cs, i, cs[i].citations[k]);
    }
  }

  /** The answer model's numbering check never rejects a built answer. */
  lemma NumberingNeverRejected(d: Draft, ctx: Context)
    ensures NumberingOk(Build(d, ctx))
  {
    var ks := Keys(Ordered(d));
    OrderedParts(d);
    PointsRefer(ks, d.supporting);
    PointsRefer(ks, d.contradictory);
    PointsRefer(ks, d.unknown);
    ChecksRefer(ks, d.checks);
  }

  lemma PointsShort(ks: seq<Citation>, ps: seq<Point>)
    requires SmallPoints(ps)
    ensures ShortPoints(ShowPoints(ks, ps), 12, 1600)
  {
  }

  lemma ChecksShort(ks: seq<Citation>, cs: seq<Check>)
    requires SmallChecks(cs)
    ensures ShortPoints(ShowChecks(ks, cs), 8, 400)
  {
  }

  predicate ItemFits(item: Item) {
    && item.statement.Some? && 1 <= |item.statement.value| <= 1600
    && (item.provenance.Some? ==> 1 <= |item.provenance.value| <= 400)
    && item.typed
  }

  predicate SectionFits(s: Section) {
    && (if s.title.Some? then 1 <= |s.title.value| <= 400 else 1 <= |s.sectionId| <= 400)
    && (s.excerpt.Some? ==> 1 <= |s.excerpt.value| <= 1600)
  }

  /** What the context holds for the citation can be shown on a card. */
  predicate Showable(ctx: Context, c: Citation) {
    match c
    case Evidence(id, _, _) =>
      var item := ItemOf(ctx.items, id);
      item.Some? && ItemFits(item.value)
    case Runbook(_, _, _) =>
      var s := SectionOf(ctx.sections, c);
      s.Some? && SectionFits(s.value)
  }

  lemma CardsOkIff(ctx: Context, ks: seq<Citation>)
    ensures (forall i :: 0 <= i < |ks| ==> CardOk(Cards(ctx, ks)[i])) <==> (forall c :: c in ks ==> Showable(ctx, c))
  {
    forall i | 0 <= i < |ks| ensures CardOk(Cards(ctx, ks)[i]) <==> Showable(ctx, ks[i]) {
      assert Cards(ctx, ks)[i] == CardOf(ctx, ks[i], i + 1);
    }
  }

  /** What can reject it are the limits of the answer and its cards: exactly when more than
      24 different citations were made, or something cited does not fit its card. */
  lemma BuildableIff(d: Draft, ctx: Context)
    requires SchemaOk(d)
    ensures Buildable(Build(d, ctx)) <==>
      |Keys(Ordered(d))| <= 24 && forall c :: c in Ordered(d) ==> Showable(ctx, c)
  {
    var ks := Keys(Ordered(d));
    CardsOkIff(ctx, ks);
    NumberingNeverRejected(d, ctx);
    PointsShort(ks, d.supporting);
    PointsShort(ks, d.contradictory);
    PointsShort(ks, d.unknown);
    ChecksShort(ks, d.checks);
  }

  /** Numbers follow first occurrence: the first i citations use the first numbers. */
  lemma {:induction false} FirstOccurrence(cs: seq<Citation>, i: nat)
    requires i <= |cs|
    ensures Keys(cs[..i]) <= Keys(cs)
    decreases |cs|
  {
    if i == |cs| {
      assert cs[..i] == cs;
    } else {
      FirstOccurrence(Front(cs), i);
      assert Front(cs)[..i] == cs[..i];
    }
  }

  // ---- what a card shows ----------------------------------------------------------

  /** The item filed last under the id, in terms of positions. */
  predicate LastUnder(items: seq<Item>, id: string, i: nat) {
    && i < |items| && items[i].id == id
    && forall j :: i < j < |items| ==> items[j].id != id
  }

  predicate FirstSection(sections: seq<Section>, c: Citation, i: nat)
    requires c.Runbook?
  {
    var Is := (s: Section) =>
      s.runbookId == c.runbookId && s.runbookVersion == c.runbookVersion && s.sectionId == c.sectionId;
    && i < |sections| && Is(sections[i])
    && forall j :: 0 <= j < i ==> !Is(sections[j])
  }

  lemma {:induction false} ItemFound(items: seq<Item>, id: string, i: nat)
    requires LastUnder(items, id, i)
    ensures ItemOf(items, id) == Some(items[i])
  {
    if i < |items| - 1 {
      assert items[|items|-1].id != id;
      ItemFound(Front(items), id, i);
    }
  }

  lemma {:induction false} SectionFound(sections: seq<Section>, c: Citation, i: nat)
    requires c.Runbook? && FirstSection(sections, c, i)
    ensures SectionOf(sections, c) == Some(sections[i])
  {
    if i > 0 {
      assert !IsSection(sections[0], c);
      assert forall j :: 0 <= j < i - 1 ==> !IsSection(sections[1..][j], c);
      SectionFound(sections[1..], c, i - 1);
    }
  }

  /** The card of a piece of evidence shows what the item filed last under its id says, ... */
  lemma EvidenceShown(ctx: Context, c: Citation, number: nat, i: nat)
    requires c.Evidence? && LastUnder(ctx.items, c.evidenceId, i)
    ensures CardOf(ctx, c, number) == EvidenceCard(
      number, c.evidenceId, ctx.items[i].statement,
      if ctx.items[i].provenance.Some? then ctx.items[i].provenance.value else "Validated incident evidence",
      ctx.items[i].typed, ctx.packageId, ctx.packageVersion)
  {
    ItemFound(ctx.items, c.evidenceId, i);
  }

  /** ... and that of a runbook the title and excerpt of the first section that it names. */
  lemma RunbookShown(ctx: Context, c: Citation, number: nat, i: nat)
    requires c.Runbook? && FirstSection(ctx.sections, c, i)
    ensures CardOf(ctx, c, number) == RunbookCard(
      number, c.runbookId, c.runbookVersion, c.sectionId,
      if ctx.sections[i].title.Some? then ctx.sections[i].title.value else c.sectionId,
      if ctx.sections[i].excerpt.Some? then ctx.sections[i].excerpt.value
      else "Approved runbook guidance is available for human review.")
  {
    SectionFound(ctx.sections, c, i);
  }

  // ---- authority ----------------------------------------------------------------

  lemma {:induction false} FlaggedNone(ctx: Context, cs: seq<Citation>, place: Place)
    ensures Flagged(ctx, cs, place) == {} <==> forall c :: c in cs ==> Authorised(ctx, c)
  {
    if cs != [] {
      FlaggedNone(ctx, Front(cs), place);
      assert cs == Front(cs) + [Last(cs)];
    }
  }

  lemma {:induction false} PointsAuthorised(ctx: Context, ps: seq<Point>, mustCite: bool)
    requires PointProblems(ctx, ps, mustCite) == {}
    ensures forall c :: c in Cited(ps) ==> Authorised(ctx, c)
  {
    if ps != [] {
      PointsAuthorised(ctx, Front(ps), mustCite);
      FlaggedNone(ctx, Last(ps).citations, AtPoint);
    }
  }

  lemma {:induction false} ChecksAuthorised(ctx: Context, cs: seq<Check>)
    requires CheckProblems(ctx, cs) == {}
    ensures forall c :: c in CitedByChecks(cs) ==> Authorised(ctx, c)
  {
    if cs != [] {
      ChecksAuthorised(ctx, Front(cs));
      FlaggedNone(ctx, Last(cs).citations, AtCheck);
    }
  }

  predicate AllAuthorised(ctx: Context, cs: seq<Citation>) {
    forall c :: c in cs ==> Authorised(ctx, c)
  }

  lemma AcceptedAuthorised(d: Draft, ctx: Context)
    requires Problems(d, ctx) == {}
    ensures AllAuthorised(ctx, Keys(Ordered(d)))
  {
    PointsAuthorised(ctx, d.supporting, true);
    PointsAuthorised(ctx, d.contradictory, true);
    PointsAuthorised(ctx, d.unknown, false);
    ChecksAuthorised(ctx, d.checks);
  }

  predicate Covered(ctx: Context, c: Citation) {
    c in ctx.manifest || HasSection(ctx, c)
  }

  /** The evidence cited is that of the context's own package. */
  predicate OwnPackage(ctx: Context, cs: seq<Citation>) {
    forall c :: c in cs && c.Evidence? ==> c.packageId == ctx.packageId && c.packageVersion == ctx.packageVersion
  }

  predicate DistinctCards(cards: seq<Card>) {
    forall i, j :: 0 <= i < j < |cards| ==> Stands(cards[i]) != Stands(cards[j])
  }

  /** A card stands for the very citation it was made for exactly when the citation is of
      the context's own package: the card shows that package whatever the citation said. */
  lemma StandsForItselfIff(ctx: Context, c: Citation, n: nat)
    ensures Stands(CardOf(ctx, c, n)) == c <==>
      (c.Evidence? ==> c.packageId == ctx.packageId && c.packageVersion == ctx.packageVersion)
  {
  }

  lemma OwnKeys(ctx: Context, d: Draft)
    ensures OwnPackage(ctx, Ordered(d)) <==> OwnPackage(ctx, Keys(Ordered(d)))
  {
  }

  predicate StandFor(cards: seq<Card>, ks: seq<Citation>) {
    |cards| == |ks| && forall i :: 0 <= i < |ks| ==> Stands(cards[i]) == ks[i]
  }

  /** So the cards stand for the keys one by one exactly when no evidence of another package
      was cited. */
  lemma CardsStandIff(d: Draft, ctx: Context)
    ensures StandFor(Build(d, ctx).citations, Keys(Ordered(d))) <==> OwnPackage(ctx, Ordered(d))
  {
    var ks := Keys(Ordered(d));
    OwnKeys(ctx, d);
    forall i | 0 <= i < |ks| ensures Stands(Cards(ctx, ks)[i]) == ks[i] <==>
      (ks[i].Evidence? ==> ks[i].packageId == ctx.packageId && ks[i].packageVersion == ctx.packageVersion)
    {
      StandsForItselfIff(ctx, ks[i], i + 1);
    }
    if StandFor(Cards(ctx, ks), ks) {
      forall c | c in ks && c.Evidence? ensures c.packageId == ctx.packageId && c.packageVersion == ctx.packageVersion {
        var i :| 0 <= i < |ks| && ks[i] == c;
        assert Stands(Cards(ctx, ks)[i]) == ks[i];
      }
    }
  }

  /** In an accepted answer every card then stands for something in the manifests, and no
      two for the same. */
  lemma CardsAreAuthorised(d: Draft, ctx: Context)
    requires Problems(d, ctx) == {} && OwnPackage(ctx, Ordered(d))
    ensures var cards := Build(d, ctx).citations;
      DistinctCards(cards) && forall i :: 0 <= i < |cards| ==> Covered(ctx, Stands(cards[i]))
  {
    var ks, cards := Keys(Ordered(d)), Build(d, ctx).citations;
    CardsStandIff(d, ctx);
    AcceptedAuthorised(d, ctx);
    DistinctFrom(cards, ks);
    forall i | 0 <= i < |cards| ensures Covered(ctx, Stands(cards[i])) {
      assert ks[i] in ks && Authorised(ctx, ks[i]);
    }
  }

  lemma DistinctFrom(cards: seq<Card>, ks: seq<Citation>)
    requires StandFor(cards, ks) && forall i, j :: 0 <= i < j < |ks| ==> ks[i] != ks[j]
    ensures DistinctCards(cards)
  {
    forall i, j | 0 <= i < j < |cards| ensures Stands(cards[i]) != Stands(cards[j]) {
      assert ks[i] != ks[j];
    }
  }

  // ---- drafts the validator passes and the model refuses ------------------------

  lemma {:induction false} DistinctKeys(cs: seq<Citation>)
    requires forall i, j :: 0 <= i < j < |cs| ==> cs[i] != cs[j]
    ensures |Keys(cs)| == |cs|
  {
    if cs != [] {
      DistinctKeys(Front(cs));
      forall i | 0 <= i < |Front(cs)| ensures Front(cs)[i] != Last(cs) {
        assert cs[i] != cs[|cs|-1];
      }
    }
  }

  function FourPoints(ctx: Context, a: seq<Citation>, b: seq<Citation>, c: seq<Citation>, e: seq<Citation>): Draft {
    Draft(false, ctx.incident, ctx.packageId, ctx.packageVersion, ctx.leading, ctx.tier, ctx.alternative,
          [Point("1", a), Point("2", b), Point("3", c), Point("4", e)], [], [], [])
  }

  lemma FourCited(ctx: Context, a: seq<Citation>, b: seq<Citation>, c: seq<Citation>, e: seq<Citation>)
    ensures Ordered(FourPoints(ctx, a, b, c, e)) == a + b + c + e
  {
    var p, q, r, s := Point("1", a), Point("2", b), Point("3", c), Point("4", e);
    assert Front([p, q, r, s]) == [p, q, r] && Front([p, q, r]) == [p, q] && Front([p, q]) == [p] && Front([p]) == [];
    assert Cited([p]) == a;
    assert Cited([p, q]) == a + b;
    assert Cited([p, q, r]) == a + b + c;
    assert Cited([p, q, r, s]) == a + b + c + e;
  }

  predicate Fits(ctx: Context, cs: seq<Citation>) {
    1 <= |cs| <= 8 && AllAuthorised(ctx, cs)
  }

  lemma {:induction false} FitsUnflagged(ctx: Context, p: Point, ps: seq<Point>)
    requires Fits(ctx, p.citations) && PointProblems(ctx, ps, true) == {}
    ensures PointProblems(ctx, ps + [p], true) == {}
  {
    assert Front(ps + [p]) == ps;
    FlaggedNone(ctx, p.citations, AtPoint);
  }

  lemma FourPass(ctx: Context, a: seq<Citation>, b: seq<Citation>, c: seq<Citation>, e: seq<Citation>)
    requires ctx.complete && Fits(ctx, a) && Fits(ctx, b) && Fits(ctx, c) && Fits(ctx, e)
    ensures SchemaOk(FourPoints(ctx, a, b, c, e)) && Problems(FourPoints(ctx, a, b, c, e), ctx) == {}
  {
    var p, q, r, s := Point("1", a), Point("2", b), Point("3", c), Point("4", e);
    FitsUnflagged(ctx, p, []);
    assert [] + [p] == [p];
    FitsUnflagged(ctx, q, [p]);
    assert [p] + [q] == [p, q];
    FitsUnflagged(ctx, r, [p, q]);
    assert [p, q] + [r] == [p, q, r];
    FitsUnflagged(ctx, s, [p, q, r]);
    assert [p, q, r] + [s] == [p, q, r, s];
  }

  /** More than 24 different authorised citations, even over four points, pass every check
      of the validator and still make no answer. */
  lemma PassedButUnbuildable(ctx: Context, a: seq<Citation>, b: seq<Citation>, c: seq<Citation>, e: seq<Citation>)
    requires ctx.complete && Fits(ctx, a) && Fits(ctx, b) && Fits(ctx, c) && Fits(ctx, e)
    requires |a + b + c + e| > 24
    requires forall i, j :: 0 <= i < j < |a + b + c + e| ==> (a + b + c + e)[i] != (a + b + c + e)[j]
    ensures Validate(FourPoints(ctx, a, b, c, e), ctx, {}) == Unbuildable
  {
    FourPass(ctx, a, b, c, e);
    FourCited(ctx, a, b, c, e);
    DistinctKeys(a + b + c + e);
    BuildableIff(FourPoints(ctx, a, b, c, e), ctx);
  }

  function OnePoint(ctx: Context, c: Citation): Draft {
    Draft(false, ctx.incident, ctx.packageId, ctx.packageVersion, ctx.leading, ctx.tier, ctx.alternative,
          [Point("1", [c])], [], [], [])
  }

  /** One authorised citation of what does not fit a card passes every check and makes no
      answer; and only such a one, for a draft of this shape. */
  lemma OneCitationUnbuildableIff(ctx: Context, c: Citation)
    requires ctx.complete && Authorised(ctx, c)
    ensures Validate(OnePoint(ctx, c), ctx, {}) == Unbuildable <==> !Showable(ctx, c)
  {
    OnePointPasses(ctx, c);
    BuildableIff(OnePoint(ctx, c), ctx);
  }

  lemma OnePointPasses(ctx: Context, c: Citation)
    requires ctx.complete && Authorised(ctx, c)
    ensures var d := OnePoint(ctx, c);
      SchemaOk(d) && Problems(d, ctx) == {} && Ordered(d) == [c] && Keys(Ordered(d)) == [c]
  {
    assert Front([Point("1", [c])]) == [];
    assert Fits(ctx, [c]);
    FitsUnflagged(ctx, Point("1", [c]), []);
    assert [] + [Point("1", [c])] == [Point("1", [c])];
    assert Ordered(OnePoint(ctx, c)) == [c];
    DistinctKeys([c]);
  }

  /** So does a runbook section without a body, for its excerpt is empty, ... */
  lemma EmptyExcerptUnbuildable(ctx: Context, s: Section)
    requires ctx.complete && ctx.sections == [s] && s.excerpt == Some("")
    ensures Validate(OnePoint(ctx, Runbook(s.runbookId, s.runbookVersion, s.sectionId)), ctx, {}) == Unbuildable
  {
    var c := Runbook(s.runbookId, s.runbookVersion, s.sectionId);
    assert IsSection(ctx.sections[0], c);
    OneCitationUnbuildableIff(ctx, c);
  }

  /** ... and an item of evidence whose statement is empty or over 1600 characters. */
  lemma LongStatementUnbuildable(ctx: Context, item: Item)
    requires ctx.complete && ctx.items == [item] && item.statement.Some? && !Sized(item.statement.value, 1600)
    requires Evidence(item.id, ctx.packageId, ctx.packageVersion) in ctx.manifest
    ensures Validate(OnePoint(ctx, Evidence(item.id, ctx.packageId, ctx.packageVersion)), ctx, {}) == Unbuildable
  {
    assert ctx.items[0].id == item.id;
    OneCitationUnbuildableIff(ctx, Evidence(item.id, ctx.packageId, ctx.packageVersion));
  }

  /** A draft becomes an answer exactly when the schema, the validator, the text scan and the
      limits of the answer let it through. */
  lemma PassedIff(d: Draft, ctx: Context, text: set<string>)
    ensures Validate(d, ctx, text).Accepted? <==>
      && SchemaOk(d) && Problems(d, ctx) == {} && text == {}
      && |Keys(Ordered(d))| <= 24 && (forall c :: c in Ordered(d) ==> Showable(ctx, c))
  {
    if t :| t in text {
      assert Text(t) in TextProblems(text);
    }
    if SchemaOk(d) {
      BuildableIff(d, ctx);
    }
  }

  /** Such as evidence of another package, where the manifest has it: the draft is accepted,
      and its card names the context's package instead. */
  lemma ForeignEvidenceMisnamed(ctx: Context, c: Citation)
    requires ctx.complete && Authorised(ctx, c) && Showable(ctx, c) && Foreign(ctx, c)
    ensures var d := OnePoint(ctx, c);
      Validate(d, ctx, {}).Accepted? && Build(d, ctx).citations == [CardOf(ctx, c, 1)] && Stands(CardOf(ctx, c, 1)) != c
  {
    var d := OnePoint(ctx, c);
    OnePointPasses(ctx, c);
    PassedIff(d, ctx, {});
    StandsForItselfIff(ctx, c, 1);
  }

  /** For example here. */
  lemma ForeignEvidenceExists()
    ensures exists ctx: Context, c: Citation ::
      ctx.complete && Authorised(ctx, c) && Showable(ctx, c) && Foreign(ctx, c)
  {
    var c := Evidence("error-rate", "package-1", 1);
    var item := Item("error-rate", Some("The technical error rate rose."), None, true);
    var ctx := Context("incident", "package-2", 2, true, None, "WEAK_EVIDENCE", None, [item], [c], []);
    assert ctx.items[0].id == "error-rate";
    assert ItemOf(ctx.items, "error-rate") == Some(item);
    assert Foreign(ctx, c);
  }

  predicate Foreign(ctx: Context, c: Citation) {
    c.Evidence? && (c.packageId != ctx.packageId || c.packageVersion != ctx.packageVersion)
  }
}
