/** What the validator objects to, and what a draft that becomes an answer is like. */
module Objections {
  import opened Lists
  import opened Options
  import opened Citations
  import opened CitationFaithfulness

  /** The citation is in the manifest and has its item, or is of one of the sections. */
  predicate Listed(ctx: Context, c: Citation) {
    match c
    case Evidence(id, _, _) => c in ctx.manifest && exists item :: item in ctx.items && item.id == id
    case Runbook(id, version, section) =>
      exists s :: s in ctx.sections && s.runbookId == id && s.runbookVersion == version && s.sectionId == section
  }

  lemma AuthorisedIsListed(ctx: Context, c: Citation)
    ensures Authorised(ctx, c) <==> Listed(ctx, c)
  {
    if Listed(ctx, c) {
      match c
      case Evidence(id, _, _) =>
        var item :| item in ctx.items && item.id == id;
        var i :| 0 <= i < |ctx.items| && ctx.items[i] == item;
      case Runbook(_, _, _) =>
        var s :| s in ctx.sections && IsSection(s, c);
        var i :| 0 <= i < |ctx.sections| && ctx.sections[i] == s;
    }
  }

  /** A citation of this kind is not listed. */
  predicate Stray(ctx: Context, c: Citation, evidence: bool) { c.Evidence? == evidence && !Listed(ctx, c) }

  predicate StrayIn(ctx: Context, cs: seq<Citation>, evidence: bool) {
    exists c :: c in cs && Stray(ctx, c, evidence)
  }

  function Unauthorised(evidence: bool, place: Place): Problem {
    if evidence then UnauthorisedEvidence(place) else UnauthorisedRunbook(place)
  }

  lemma {:induction false} FlaggedIff(ctx: Context, cs: seq<Citation>, place: Place, evidence: bool)
    ensures Unauthorised(evidence, place) in Flagged(ctx, cs, place) <==> StrayIn(ctx, cs, evidence)
    ensures forall p :: p in Flagged(ctx, cs, place) ==> p in {Unauthorised(true, place), Unauthorised(false, place)}
  {
    if cs != [] {
      var c := Last(cs);
      assert cs == Front(cs) + [c];
      FlaggedIff(ctx, Front(cs), place, evidence);
      AuthorisedIsListed(ctx, c);
      assert StrayIn(ctx, cs, evidence) <==> StrayIn(ctx, Front(cs), evidence) || Stray(ctx, c, evidence);
    }
  }

  predicate StrayPoint(ctx: Context, ps: seq<Point>, evidence: bool) {
    exists x :: x in ps && StrayIn(ctx, x.citations, evidence)
  }

  predicate StrayCheck(ctx: Context, cs: seq<Check>, evidence: bool) {
    exists x :: x in cs && StrayIn(ctx, x.citations, evidence)
  }

  predicate UncitedIn(ps: seq<Point>) { exists x :: x in ps && x.citations == [] }

  predicate UncitedCheckIn(cs: seq<Check>) { exists x :: x in cs && x.citations == [] }

  lemma {:induction false} PointProblemIff(ctx: Context, ps: seq<Point>, mustCite: bool, evidence: bool)
    ensures var found := PointProblems(ctx, ps, mustCite);
      && (Unauthorised(evidence, AtPoint) in found <==> StrayPoint(ctx, ps, evidence))
      && (UncitedPoint in found <==> mustCite && UncitedIn(ps))
      && (forall p :: p in found ==> p in {Unauthorised(true, AtPoint), Unauthorised(false, AtPoint), UncitedPoint})
  {
    if ps != [] {
      var x := Last(ps);
      assert ps == Front(ps) + [x];
      PointProblemIff(ctx, Front(ps), mustCite, evidence);
      FlaggedIff(ctx, x.citations, AtPoint, evidence);
    }
  }

  lemma {:induction false} CheckProblemIff(ctx: Context, cs: seq<Check>, evidence: bool)
    ensures var found := CheckProblems(ctx, cs);
      && (Unauthorised(evidence, AtCheck) in found <==> StrayCheck(ctx, cs, evidence))
      && (UncitedCheck in found <==> UncitedCheckIn(cs))
      && (forall p :: p in found ==> p in {Unauthorised(true, AtCheck), Unauthorised(false, AtCheck), UncitedCheck})
  {
    if cs != [] {
      var x := Last(cs);
      assert cs == Front(cs) + [x];
      CheckProblemIff(ctx, Front(cs), evidence);
      FlaggedIff(ctx, x.citations, AtCheck, evidence);
    }
  }

  function PointsOf(d: Draft): seq<Point> { d.supporting + d.contradictory + d.unknown }

  predicate StrayAt(d: Draft, ctx: Context, place: Place, evidence: bool) {
    match place
    case AtPoint => StrayPoint(ctx, PointsOf(d), evidence)
    case AtCheck => StrayCheck(ctx, d.checks, evidence)
  }

  /** What each objection says of the draft. */
  predicate Warranted(d: Draft, ctx: Context, p: Problem) {
    match p
    case Schema => false
    case CrossIncident => d.incident != ctx.incident
    case WrongPackage => (d.packageId, d.packageVersion) != (ctx.packageId, ctx.packageVersion)
    case InvalidPackage => !ctx.complete
    case LeaderChanged => d.leading != ctx.leading
    case TierChanged => d.tier != ctx.tier
    case AlternativeDropped => d.initial && ctx.alternative !in {None, Some("")} && d.alternative != ctx.alternative
    case UnauthorisedEvidence(place) => StrayAt(d, ctx, place, true)
    case UnauthorisedRunbook(place) => StrayAt(d, ctx, place, false)
    case UncitedPoint => UncitedIn(d.supporting + d.contradictory)
    case UncitedCheck => UncitedCheckIn(d.checks)
    case Text(_) => false
  }

  lemma StrayPoints(d: Draft, ctx: Context, evidence: bool)
    ensures StrayPoint(ctx, PointsOf(d), evidence) <==>
      || StrayPoint(ctx, d.supporting, evidence) || StrayPoint(ctx, d.contradictory, evidence)
      || StrayPoint(ctx, d.unknown, evidence)
  {
  }

  /** The objections not about citations. */
  predicate Identifies(p: Problem) {
    p in {CrossIncident, WrongPackage, InvalidPackage, LeaderChanged, TierChanged, AlternativeDropped}
  }

  lemma IdentityIff(d: Draft, ctx: Context, p: Problem)
    ensures p in IdentityProblems(d, ctx) <==> Identifies(p) && Warranted(d, ctx, p)
  {
  }

  predicate PointsWarrant(ctx: Context, ps: seq<Point>, mustCite: bool, p: Problem) {
    match p
    case UnauthorisedEvidence(AtPoint) => StrayPoint(ctx, ps, true)
    case UnauthorisedRunbook(AtPoint) => StrayPoint(ctx, ps, false)
    case UncitedPoint => mustCite && UncitedIn(ps)
    case _ => false
  }

  predicate ChecksWarrant(ctx: Context, cs: seq<Check>, p: Problem) {
    match p
    case UnauthorisedEvidence(AtCheck) => StrayCheck(ctx, cs, true)
    case UnauthorisedRunbook(AtCheck) => StrayCheck(ctx, cs, false)
    case UncitedCheck => UncitedCheckIn(cs)
    case _ => false
  }

  lemma PointsObject(ctx: Context, ps: seq<Point>, mustCite: bool, p: Problem)
    ensures p in PointProblems(ctx, ps, mustCite) <==> PointsWarrant(ctx, ps, mustCite, p)
  {
    PointProblemIff(ctx, ps, mustCite, true);
    PointProblemIff(ctx, ps, mustCite, false);
  }

  lemma ChecksObject(ctx: Context, cs: seq<Check>, p: Problem)
    ensures p in CheckProblems(ctx, cs) <==> ChecksWarrant(ctx, cs, p)
  {
    CheckProblemIff(ctx, cs, true);
    CheckProblemIff(ctx, cs, false);
  }

  /** Some part of the draft warrants the objection. */
  predicate SomePart(d: Draft, ctx: Context, p: Problem) {
    || (Identifies(p) && Warranted(d, ctx, p))
    || PointsWarrant(ctx, d.supporting, true, p) || PointsWarrant(ctx, d.contradictory, true, p)
    || PointsWarrant(ctx, d.unknown, false, p)
    || ChecksWarrant(ctx, d.checks, p)
  }

  lemma WarrantedByPart(d: Draft, ctx: Context, p: Problem)
    ensures SomePart(d, ctx, p) <==> Warranted(d, ctx, p)
  {
    match p
    case UnauthorisedEvidence(AtPoint) => StrayPoints(d, ctx, true);
    case UnauthorisedRunbook(AtPoint) => StrayPoints(d, ctx, false);
    case _ =>
  }

  lemma ObjectedByPart(d: Draft, ctx: Context, p: Problem)
    ensures p in Problems(d, ctx) <==>
      || p in IdentityProblems(d, ctx)
      || p in PointProblems(ctx, d.supporting, true) || p in PointProblems(ctx, d.contradictory, true)
      || p in PointProblems(ctx, d.unknown, false)
      || p in CheckProblems(ctx, d.checks)
  {
  }

  /** The validator objects to exactly what is warranted. */
  lemma ObjectsIff(d: Draft, ctx: Context, p: Problem)
    ensures p in Problems(d, ctx) <==> Warranted(d, ctx, p)
  {
    ObjectedByPart(d, ctx, p);
    IdentityIff(d, ctx, p);
    PointsObject(ctx, d.supporting, true, p);
    PointsObject(ctx, d.contradictory, true, p);
    PointsObject(ctx, d.unknown, false, p);
    ChecksObject(ctx, d.checks, p);
    WarrantedByPart(d, ctx, p);
  }

  /** A refused draft is told exactly what is warranted and what the text scan found. */
  lemma RefusedFor(d: Draft, ctx: Context, text: set<string>, p: Problem)
    requires SchemaOk(d) && Validate(d, ctx, text).Invalid?
    ensures p in Validate(d, ctx, text).problems <==> Warranted(d, ctx, p) || (p.Text? && p.found in text)
  {
    ObjectsIff(d, ctx, p);
  }

  /** The draft is about the context's incident, package, leader and tier, and keeps its
      alternative where it has to. */
  predicate TrueToContext(d: Draft, ctx: Context) {
    && d.incident == ctx.incident && d.packageId == ctx.packageId && d.packageVersion == ctx.packageVersion
    && ctx.complete && d.leading == ctx.leading && d.tier == ctx.tier
    && (d.initial && ctx.alternative.Some? && ctx.alternative.value != "" ==> d.alternative == ctx.alternative)
  }

  /** Supporting and contradictory points and checks are cited, and every citation is listed. */
  predicate WellCited(d: Draft, ctx: Context) {
    && (forall x :: x in d.supporting + d.contradictory ==> x.citations != [])
    && (forall x :: x in d.checks ==> x.citations != [])
    && (forall x, c :: x in PointsOf(d) && c in x.citations ==> Listed(ctx, c))
    && (forall x, c :: x in d.checks && c in x.citations ==> Listed(ctx, c))
  }

  lemma NoStrayPoint(d: Draft, ctx: Context)
    ensures !StrayAt(d, ctx, AtPoint, true) && !StrayAt(d, ctx, AtPoint, false) <==>
      forall x, c :: x in PointsOf(d) && c in x.citations ==> Listed(ctx, c)
  {
    forall x, c | x in PointsOf(d) && c in x.citations && !Listed(ctx, c)
      ensures StrayAt(d, ctx, AtPoint, c.Evidence?)
    {
      assert Stray(ctx, c, c.Evidence?);
    }
  }

  lemma NoStrayCheck(d: Draft, ctx: Context)
    ensures !StrayAt(d, ctx, AtCheck, true) && !StrayAt(d, ctx, AtCheck, false) <==>
      forall x, c :: x in d.checks && c in x.citations ==> Listed(ctx, c)
  {
    forall x, c | x in d.checks && c in x.citations && !Listed(ctx, c)
      ensures StrayAt(d, ctx, AtCheck, c.Evidence?)
    {
      assert Stray(ctx, c, c.Evidence?);
    }
  }

  lemma CitationsUnobjectedIff(d: Draft, ctx: Context)
    ensures WellCited(d, ctx) <==> forall p :: !Identifies(p) ==> !Warranted(d, ctx, p)
  {
    NoStrayPoint(d, ctx);
    NoStrayCheck(d, ctx);
    if forall p :: !Identifies(p) ==> !Warranted(d, ctx, p) {
      assert !Warranted(d, ctx, UnauthorisedEvidence(AtPoint)) && !Warranted(d, ctx, UnauthorisedRunbook(AtPoint));
      assert !Warranted(d, ctx, UnauthorisedEvidence(AtCheck)) && !Warranted(d, ctx, UnauthorisedRunbook(AtCheck));
      assert !Warranted(d, ctx, UncitedPoint) && !Warranted(d, ctx, UncitedCheck);
    }
  }

  lemma IdentityUnobjectedIff(d: Draft, ctx: Context)
    ensures TrueToContext(d, ctx) <==> forall p :: Identifies(p) ==> !Warranted(d, ctx, p)
  {
    if forall p :: Identifies(p) ==> !Warranted(d, ctx, p) {
      assert !Warranted(d, ctx, CrossIncident) && !Warranted(d, ctx, WrongPackage);
      assert !Warranted(d, ctx, InvalidPackage) && !Warranted(d, ctx, LeaderChanged);
      assert !Warranted(d, ctx, TierChanged) && !Warranted(d, ctx, AlternativeDropped);
    }
  }

  lemma NoProblemsIff(d: Draft, ctx: Context)
    ensures Problems(d, ctx) == {} <==> TrueToContext(d, ctx) && WellCited(d, ctx)
  {
    forall p ensures p in Problems(d, ctx) <==> Warranted(d, ctx, p) {
      ObjectsIff(d, ctx, p);
    }
    IdentityUnobjectedIff(d, ctx);
    CitationsUnobjectedIff(d, ctx);
  }

  /** A draft is accepted exactly when it fits the schema, is true to the context and well
      cited, the text scan finds nothing, and the answer is within its limits. */
  lemma AcceptedIff(d: Draft, ctx: Context, text: set<string>)
    ensures Validate(d, ctx, text).Accepted? <==>
      && SchemaOk(d) && TrueToContext(d, ctx) && WellCited(d, ctx) && text == {}
      && |Keys(Ordered(d))| <= 24 && (forall c :: c in Ordered(d) ==> Showable(ctx, c))
  {
    NoProblemsIff(d, ctx);
    PassedIff(d, ctx, text);
  }
}
