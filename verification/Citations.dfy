/** Validation of a drafted answer's citations, and their numbering. */
module Citations {
  import opened Lists
  import opened Options

  type Version = n: int | n >= 1 witness 1

  /** A citation is its own key. */
  datatype Citation =
    | Evidence(evidenceId: string, packageId: string, packageVersion: Version)
    | Runbook(runbookId: string, runbookVersion: string, sectionId: string)

  datatype Point = Point(text: string, citations: seq<Citation>)
  datatype Check = Check(title: string, citations: seq<Citation>)

  datatype Draft = Draft(
    initial: bool,
    incident: string,
    packageId: string,
    packageVersion: Version,
    leading: Option<string>,
    tier: string,
    alternative: Option<string>,
    supporting: seq<Point>,
    contradictory: seq<Point>,
    unknown: seq<Point>,
    checks: seq<Check>)

  /** An item of evidence, a dict: None where a key is absent.  typed: its other fields have
      the types a card wants. */
  datatype Item = Item(id: string, statement: Option<string>, provenance: Option<string>, typed: bool)
  datatype Section = Section(
    runbookId: string, runbookVersion: string, sectionId: string, title: Option<string>, excerpt: Option<string>)

  datatype Context = Context(
    incident: string,
    packageId: string,
    packageVersion: Version,
    complete: bool,
    leading: Option<string>,
    tier: string,
    alternative: Option<string>,
    items: seq<Item>,
    manifest: seq<Citation>,
    sections: seq<Section>)

  datatype Place = AtPoint | AtCheck

  datatype Problem =
    | Schema
    | CrossIncident
    | WrongPackage
    | InvalidPackage
    | LeaderChanged
    | TierChanged
    | AlternativeDropped
    | UnauthorisedEvidence(place: Place)
    | UnauthorisedRunbook(place: Place)
    | UncitedPoint
    | UncitedCheck
    | Text(found: string)

  /** What the answer shows for a citation. */
  datatype Card =
    | EvidenceCard(number: nat, evidenceId: string, statement: Option<string>, provenance: string, typed: bool,
                   packageId: string, packageVersion: Version)
    | RunbookCard(number: nat, runbookId: string, runbookVersion: string, sectionId: string, title: string,
                  excerpt: string)

  datatype ShownPoint = ShownPoint(text: string, numbers: seq<nat>)

  datatype Answer = Answer(
    supporting: seq<ShownPoint>,
    contradictory: seq<ShownPoint>,
    unknown: seq<ShownPoint>,
    checks: seq<ShownPoint>,
    citations: seq<Card>)

  /** Accepted, refused by the validator, or refused by the answer model or one of its cards. */
  datatype Outcome = Accepted(answer: Answer) | Invalid(problems: set<Problem>) | Unbuildable

  // ---- the draft schema ---------------------------------------------------------

  /** Not empty, and no longer than n. */
  predicate Sized(text: string, n: nat) { 1 <= |text| <= n }

  predicate SmallPoints(ps: seq<Point>) {
    |ps| <= 12 && forall i :: 0 <= i < |ps| ==> Sized(ps[i].text, 1600) && |ps[i].citations| <= 8
  }

  predicate SmallChecks(cs: seq<Check>) {
    |cs| <= 8 && forall i :: 0 <= i < |cs| ==> Sized(cs[i].title, 400) && |cs[i].citations| <= 8
  }

  predicate SchemaOk(d: Draft) {
    && SmallPoints(d.supporting) && SmallPoints(d.contradictory) && SmallPoints(d.unknown) && SmallChecks(d.checks)
    && (d.initial ==> d.unknown != [])
    && (d.supporting != [] || d.contradictory != [])
  }

  // ---- problems -----------------------------------------------------------------

  predicate HasItem(ctx: Context, id: string) {
    exists i :: 0 <= i < |ctx.items| && ctx.items[i].id == id
  }

  predicate IsSection(s: Section, c: Citation) {
    c.Runbook? && s.runbookId == c.runbookId && s.runbookVersion == c.runbookVersion && s.sectionId == c.sectionId
  }

  predicate HasSection(ctx: Context, c: Citation) {
    exists i :: 0 <= i < |ctx.sections| && IsSection(ctx.sections[i], c)
  }

  predicate Authorised(ctx: Context, c: Citation) {
    match c
    case Evidence(id, _, _) => c in ctx.manifest && HasItem(ctx, id)
    case Runbook(_, _, _) => HasSection(ctx, c)
  }

  function Flagged(ctx: Context, cs: seq<Citation>, place: Place): set<Problem> {
    if cs == [] then {}
    else
      Flagged(ctx, Front(cs), place)
      + if Authorised(ctx, Last(cs)) then {}
        else if Last(cs).Evidence? then {UnauthorisedEvidence(place)} else {UnauthorisedRunbook(place)}
  }

  function PointProblems(ctx: Context, ps: seq<Point>, mustCite: bool): set<Problem> {
    if ps == [] then {}
    else
      PointProblems(ctx, Front(ps), mustCite) + Flagged(ctx, Last(ps).citations, AtPoint)
      + if mustCite && Last(ps).citations == [] then {UncitedPoint} else {}
  }

  function CheckProblems(ctx: Context, cs: seq<Check>): set<Problem> {
    if cs == [] then {}
    else
      CheckProblems(ctx, Front(cs)) + Flagged(ctx, Last(cs).citations, AtCheck)
      + if Last(cs).citations == [] then {UncitedCheck} else {}
  }

  function If(c: bool, p: Problem): set<Problem> { if c then {p} else {} }

  function IdentityProblems(d: Draft, ctx: Context): set<Problem> {
    If(d.incident != ctx.incident, CrossIncident)
    + If(d.packageId != ctx.packageId || d.packageVersion != ctx.packageVersion, WrongPackage)
    + If(!ctx.complete, InvalidPackage)
    + If(d.leading != ctx.leading, LeaderChanged)
    + If(d.tier != ctx.tier, TierChanged)
    + If(d.initial && ctx.alternative.Some? && ctx.alternative != Some("") && d.alternative != ctx.alternative,
         AlternativeDropped)
  }

  /** Everything the validator objects to, besides what scanning the text finds. */
  function Problems(d: Draft, ctx: Context): set<Problem> {
    IdentityProblems(d, ctx)
    + PointProblems(ctx, d.supporting, true) + PointProblems(ctx, d.contradictory, true)
    + PointProblems(ctx, d.unknown, false)
    + CheckProblems(ctx, d.checks)
  }

  // ---- numbering ----------------------------------------------------------------

  function Cited(ps: seq<Point>): seq<Citation> {
    if ps == [] then [] else Cited(Front(ps)) + Last(ps).citations
  }

  function CitedByChecks(cs: seq<Check>): seq<Citation> {
    if cs == [] then [] else CitedByChecks(Front(cs)) + Last(cs).citations
  }

  /** Every citation, in the order of the answer. */
  function Ordered(d: Draft): seq<Citation> {
    Cited(d.supporting) + Cited(d.contradictory) + Cited(d.unknown) + CitedByChecks(d.checks)
  }

  /** The citations in order of first occurrence. */
  function Keys(cs: seq<Citation>): (ks: seq<Citation>)
    ensures forall c :: c in ks <==> c in cs
    ensures forall i, j :: 0 <= i < j < |ks| ==> ks[i] != ks[j]
  {
    if cs == [] then []
    else
      assert cs == Front(cs) + [Last(cs)];
      var ks := Keys(Front(cs));
      if Last(cs) in ks then ks else ks + [Last(cs)]
  }

  /** The position of c among the keys, from one. */
  function NumberOf(ks: seq<Citation>, c: Citation): (n: nat)
    ensures c in ks ==> 1 <= n <= |ks| && ks[n - 1] == c
  {
    if ks == [] then 0 else if Last(ks) == c then |ks| else NumberOf(Front(ks), c)
  }

  /** The item filed last under the id, as in a dict built item by item. */
  function ItemOf(items: seq<Item>, id: string): Option<Item> {
    if items == [] then None else if Last(items).id == id then Some(Last(items)) else ItemOf(Front(items), id)
  }

  /** The first matching section. */
  function SectionOf(sections: seq<Section>, c: Citation): (r: Option<Section>)
    ensures r.Some? ==> IsSection(r.value, c)
  {
    if sections == [] then None
    else if IsSection(sections[0], c) then Some(sections[0])
    else SectionOf(sections[1..], c)
  }

  const DEFAULT_PROVENANCE := "Validated incident evidence"
  const DEFAULT_EXCERPT := "Approved runbook guidance is available for human review."

  function Or(x: Option<string>, fallback: string): string { if x.Some? then x.value else fallback }

  /** Without an item or a section of the citation no card can be made; the one here then
      breaks the limits. */
  function CardOf(ctx: Context, c: Citation, number: nat): Card {
    match c
    case Evidence(id, _, _) =>
      var item := ItemOf(ctx.items, id);
      if item.None? then EvidenceCard(number, id, None, DEFAULT_PROVENANCE, true, ctx.packageId, ctx.packageVersion)
      else EvidenceCard(number, id, item.value.statement, Or(item.value.provenance, DEFAULT_PROVENANCE),
                        item.value.typed, ctx.packageId, ctx.packageVersion)
    case Runbook(id, version, section) =>
      var s := SectionOf(ctx.sections, c);
      if s.None? then RunbookCard(number, id, version, section, "", "")
      else RunbookCard(number, id, version, section, Or(s.value.title, section), Or(s.value.excerpt, DEFAULT_EXCERPT))
  }

  function Cards(ctx: Context, ks: seq<Citation>): seq<Card> {
    seq(|ks|, i requires 0 <= i < |ks| => CardOf(ctx, ks[i], i + 1))
  }

  function Numbers(ks: seq<Citation>, cs: seq<Citation>): seq<nat> {
    seq(|cs|, i requires 0 <= i < |cs| => NumberOf(ks, cs[i]))
  }

  function ShowPoints(ks: seq<Citation>, ps: seq<Point>): seq<ShownPoint> {
    seq(|ps|, i requires 0 <= i < |ps| => ShownPoint(ps[i].text, Numbers(ks, ps[i].citations)))
  }

  function ShowChecks(ks: seq<Citation>, cs: seq<Check>): seq<ShownPoint> {
    seq(|cs|, i requires 0 <= i < |cs| => ShownPoint(cs[i].title, Numbers(ks, cs[i].citations)))
  }

  function Build(d: Draft, ctx: Context): Answer {
    var ks := Keys(Ordered(d));
    Answer(ShowPoints(ks, d.supporting), ShowPoints(ks, d.contradictory), ShowPoints(ks, d.unknown),
           ShowChecks(ks, d.checks), Cards(ctx, ks))
  }

  // ---- the answer model ---------------------------------------------------------

  predicate Consecutive(cards: seq<Card>) {
    forall i :: 0 <= i < |cards| ==> cards[i].number == i + 1
  }

  predicate RefersWithin(ps: seq<ShownPoint>, n: nat) {
    forall i :: 0 <= i < |ps| ==> forall k :: 0 <= k < |ps[i].numbers| ==> 1 <= ps[i].numbers[k] <= n
  }

  /** The model's own numbering check: consecutive from one, and no unknown number shown. */
  predicate NumberingOk(a: Answer) {
    && Consecutive(a.citations)
    && RefersWithin(a.supporting, |a.citations|) && RefersWithin(a.contradictory, |a.citations|)
    && RefersWithin(a.unknown, |a.citations|) && RefersWithin(a.checks, |a.citations|)
  }

  predicate ShortPoints(ps: seq<ShownPoint>, n: nat, size: nat) {
    |ps| <= n && forall i :: 0 <= i < |ps| ==> Sized(ps[i].text, size) && |ps[i].numbers| <= 8
  }

  /** The card models' own limits. */
  predicate CardOk(card: Card) {
    match card
    case EvidenceCard(_, _, statement, provenance, typed, _, _) =>
      statement.Some? && Sized(statement.value, 1600) && Sized(provenance, 400) && typed
    case RunbookCard(_, _, _, _, title, excerpt) => Sized(title, 400) && Sized(excerpt, 1600)
  }

  /** Its length limits, and those of its cards. */
  predicate LengthsOk(a: Answer) {
    && ShortPoints(a.supporting, 12, 1600) && ShortPoints(a.contradictory, 12, 1600) && ShortPoints(a.unknown, 12, 1600)
    && ShortPoints(a.checks, 8, 400) && |a.citations| <= 24
    && (forall i :: 0 <= i < |a.citations| ==> CardOk(a.citations[i]))
  }

  predicate Buildable(a: Answer) { NumberingOk(a) && LengthsOk(a) }

  function TextProblems(text: set<string>): set<Problem> { set t | t in text :: Text(t) }

  /** The validator on a draft, given what scanning its text for prohibited claims and
      unverified numbers found. */
  function Validate(d: Draft, ctx: Context, text: set<string>): Outcome {
    if !SchemaOk(d) then Invalid({Schema})
    else if Problems(d, ctx) + TextProblems(text) != {} then Invalid(Problems(d, ctx) + TextProblems(text))
    else if Buildable(Build(d, ctx)) then Accepted(Build(d, ctx))
    else Unbuildable
  }
}
