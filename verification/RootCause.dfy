/** Rule-based root-cause analysis: which operational changes may explain an incident, and
    how they rank. */
module RootCause {
  import opened Lists
  import opened Options
  import opened Segments
  import Sorting

  datatype EventType = Deployment | ConfigChange | Rollback

  datatype OperationalEvent = OperationalEvent(
    id: string,
    kind: EventType,
    at: int,
    service: string,
    succeeded: bool,
    categories: seq<string>,
    newVersion: Option<string>,
    fromVersion: Option<string>,
    toVersion: Option<string>,
    regions: seq<string>,
    methods: seq<string>)

  datatype RulesData = Rules(lookback: int, skew: int, shortlist: nat) {
    predicate Valid() { lookback >= 60_000_000 && skew >= 0 && 1 <= shortlist <= 10 }
  }

  /** Durations in microseconds, as validation lets them through; the default. */
  type Rules = r: RulesData | r.Valid() witness Rules(900_000_000, 15_000_000, 3)

  /** The affected segment, and whether its complement is markedly healthier. */
  datatype Affected = Affected(segment: Segment, concentrated: bool)

  datatype Analysis = Analysis(version: int, best: Option<Affected>, signature: Option<string>)

  /** The incident's start, and the analysis of its windows. */
  datatype Case = Case(start: int, analysis: Analysis)

  datatype Input = Input(incident: Case, events: seq<OperationalEvent>, recovery: bool)

  datatype Relevance = ExactService | KnownDependency | Unrelated
  datatype VersionAlignment = VersionMatches | VersionDiffers | VersionUnknown | VersionNotApplicable
  datatype ScopeAlignment = ExactScope | ContainsScope | PartialScope | DisjointScope | UnknownScope
  datatype ErrorRelevance = ErrorMatches | ErrorDiffers | ErrorUnknown

  datatype Support =
    | ValidTiming
    | ServiceRelevant
    | VersionMatch
    | ScopeAligned
    | ErrorMatch
    | Counterfactual
    | RollbackRecovery(rollback: string)

  datatype Doubt = VersionMismatch | PartialAlignment | ErrorMismatch
  datatype Gap = NoVersion | NoScope | NoError

  datatype Hypothesis = Hypothesis(
    event: OperationalEvent,
    rank: nat,
    tier: Tier,
    isLeading: bool,
    service: Relevance,
    version: VersionAlignment,
    scope: ScopeAlignment,
    error: ErrorRelevance,
    before: int,
    supporting: seq<Support>,
    contradictory: seq<Doubt>,
    missing: seq<Gap>)

  datatype Tier = Insufficient | Weak | Moderate | Strong

  function Order(t: Tier): nat {
    match t case Insufficient => 0 case Weak => 1 case Moderate => 2 case Strong => 3
  }

  datatype Reason = AfterIncident | OutsideLookback | OutsideDependencies | ScopesDisjoint
  datatype Rejection = Rejection(event: string, reason: Reason, hard: bool)

  const SERVICE := "PAYMENT_GATEWAY"
  const DEPENDENCIES: set<string> := {"TOKEN_SERVICE", "NETWORK_CONNECTOR"}
  const KNOWN_SIGNATURE := "TOKEN_VALIDATION_FAILED"
  const SIGNATURE_SERVICES: set<string> := {"PAYMENT_GATEWAY", "TOKEN_SERVICE"}
  const SIGNATURE_CATEGORIES: set<string> := {"TOKEN_VALIDATION", "TOKEN_CONFIGURATION", "TOKEN_KEY_MANAGEMENT"}

  /** A value Python takes for true. */
  predicate Given(x: Option<string>) { x.Some? && x.value != "" }

  // ---- alignment --------------------------------------------------------------

  function ServiceOf(changed: string): Relevance {
    if changed == SERVICE then ExactService else if changed in DEPENDENCIES then KnownDependency else Unrelated
  }

  function VersionOf(affected: Option<string>, e: OperationalEvent, relevance: Relevance): VersionAlignment {
    var version := if Given(e.newVersion) then e.newVersion else e.toVersion;
    if relevance.KnownDependency? then VersionNotApplicable
    else if !Given(affected) || !Given(version) then VersionUnknown
    else if version == affected then VersionMatches else VersionDiffers
  }

  function ScopeOf(affected: Segment, e: OperationalEvent): ScopeAlignment {
    var region, paymentMethod := Given(affected.region), Given(affected.paymentMethod);
    var regionKnown, methodKnown := e.regions != [], e.methods != [];
    if !region && !paymentMethod then UnknownScope
    else if !regionKnown && !methodKnown then UnknownScope
    else if region && regionKnown && affected.region.value !in e.regions then DisjointScope
    else if paymentMethod && methodKnown && affected.paymentMethod.value !in e.methods then DisjointScope
    else if region && paymentMethod && regionKnown && methodKnown then
      if |e.regions| == 1 && |e.methods| == 1 then ExactScope else ContainsScope
    else PartialScope
  }

  function ErrorOf(signature: Option<string>, e: OperationalEvent): ErrorRelevance {
    if signature != Some(KNOWN_SIGNATURE) then ErrorUnknown
    else if e.service !in SIGNATURE_SERVICES then ErrorDiffers
    else if e.categories == [] then ErrorUnknown
    else if exists c :: c in e.categories && c in SIGNATURE_CATEGORIES then ErrorMatches
    else ErrorDiffers
  }

  function SegmentOf(a: Analysis): Segment {
    if a.best.Some? then a.best.value.segment else WHOLE
  }

  // ---- classes of events ------------------------------------------------------

  datatype Verdict = LaterRollback | Declined(reason: Reason, hard: bool) | Admitted

  function Judge(r: Rules, c: Case, e: OperationalEvent): Verdict {
    if e.at > c.start + r.skew then
      if e.kind.Rollback? then LaterRollback else Declined(AfterIncident, true)
    else if e.at < c.start - r.lookback then Declined(OutsideLookback, false)
    else if ServiceOf(e.service).Unrelated? then Declined(OutsideDependencies, true)
    else if ScopeOf(SegmentOf(c.analysis), e).DisjointScope? then Declined(ScopesDisjoint, true)
    else Admitted
  }

  // ---- one hypothesis ---------------------------------------------------------

  function One<T>(c: bool, x: T): seq<T> { if c then [x] else [] }

  predicate Aligned(s: ScopeAlignment) { s.ExactScope? || s.ContainsScope? }

  /** How many of the four codes that make evidence strong are present. */
  function StrongCodes(s: seq<Support>): nat {
    (if VersionMatch in s then 1 else 0) + (if ScopeAligned in s then 1 else 0)
    + (if ErrorMatch in s then 1 else 0) + (if Counterfactual in s then 1 else 0)
  }

  function TierOf(s: seq<Support>, recovered: bool): Tier {
    if StrongCodes(s) == 4 || (recovered && StrongCodes(s) >= 2) then Strong
    else if StrongCodes(s) >= 1 then Moderate
    else Weak
  }

  function Build(c: Case, e: OperationalEvent): Hypothesis {
    var segment, service := SegmentOf(c.analysis), ServiceOf(e.service);
    var version := VersionOf(segment.version, e, service);
    var scope, error := ScopeOf(segment, e), ErrorOf(c.analysis.signature, e);
    var counterfactual := c.analysis.best.Some? && c.analysis.best.value.concentrated && version.VersionMatches?;
    var supporting := [ValidTiming, ServiceRelevant] + One(version.VersionMatches?, VersionMatch)
      + One(Aligned(scope), ScopeAligned) + One(error.ErrorMatches?, ErrorMatch) + One(counterfactual, Counterfactual);
    Hypothesis(e, 0, TierOf(supporting, false), false, service, version, scope, error, c.start - e.at, supporting,
      One(version.VersionDiffers?, VersionMismatch) + One(scope.PartialScope?, PartialAlignment)
      + One(error.ErrorDiffers?, ErrorMismatch),
      One(version.VersionUnknown?, NoVersion) + One(!Aligned(scope) && !scope.PartialScope?, NoScope)
      + One(error.ErrorUnknown?, NoError))
  }

  /** A later rollback took back the version the change brought. */
  predicate Reverts(rollback: OperationalEvent, e: OperationalEvent) {
    rollback.succeeded && Given(e.newVersion) && rollback.fromVersion == e.newVersion
  }

  /** Each rollback that reverts the change supports it, and may raise its tier. */
  function Confirm(h: Hypothesis, e: OperationalEvent, rollbacks: seq<OperationalEvent>): Hypothesis {
    if rollbacks == [] then h
    else
      var g := Confirm(h, e, Front(rollbacks));
      if Reverts(Last(rollbacks), e) then
        var supporting := g.supporting + [RollbackRecovery(Last(rollbacks).id)];
        g.(supporting := supporting, tier := TierOf(supporting, true))
      else g
  }

  function Later(r: Rules, c: Case, es: seq<OperationalEvent>): seq<OperationalEvent> {
    if es == [] then [] else Later(r, c, Front(es)) + One(Judge(r, c, Last(es)).LaterRollback?, Last(es))
  }

  function Rejected(r: Rules, c: Case, es: seq<OperationalEvent>): seq<Rejection> {
    if es == [] then []
    else
      var v := Judge(r, c, Last(es));
      Rejected(r, c, Front(es)) + if v.Declined? then [Rejection(Last(es).id, v.reason, v.hard)] else []
  }

  function Built(r: Rules, c: Case, es: seq<OperationalEvent>): seq<Hypothesis> {
    if es == [] then [] else Built(r, c, Front(es)) + One(Judge(r, c, Last(es)).Admitted?, Build(c, Last(es)))
  }

  /** The first event with the id. */
  function ById(es: seq<OperationalEvent>, id: string): (i: nat)
    ensures i <= |es| && (i < |es| ==> es[i].id == id) && forall j :: 0 <= j < i ==> es[j].id != id
  {
    if es == [] then 0
    else
      var i := ById(Front(es), id);
      if i < |Front(es)| || Last(es).id == id then i else |es|
  }

  function ConfirmFrom(h: Hypothesis, es: seq<OperationalEvent>, rollbacks: seq<OperationalEvent>): Hypothesis {
    var i := ById(es, h.event.id);
    if i < |es| then Confirm(h, es[i], rollbacks) else h
  }

  function ConfirmAll(hs: seq<Hypothesis>, es: seq<OperationalEvent>,
                      rollbacks: seq<OperationalEvent>): (r: seq<Hypothesis>)
    ensures |r| == |hs| && forall i :: 0 <= i < |hs| ==> r[i] == ConfirmFrom(hs[i], es, rollbacks)
  {
    if hs == [] then [] else ConfirmAll(Front(hs), es, rollbacks) + [ConfirmFrom(Last(hs), es, rollbacks)]
  }

  /** All hypotheses, before ranking. */
  function Hypotheses(r: Rules, x: Input): seq<Hypothesis> {
    var built := Built(r, x.incident, x.events);
    if x.recovery then ConfirmAll(built, x.events, Later(r, x.incident, x.events)) else built
  }

  // ---- ranking ----------------------------------------------------------------

  function Bit(b: bool): nat { if b then 1 else 0 }

  /** Tier, then version, scope, error and counterfactual evidence, in that order. */
  function Weight(h: Hypothesis): nat {
    16 * Order(h.tier) + 8 * Bit(h.version.VersionMatches?) + 4 * Bit(Aligned(h.scope))
    + 2 * Bit(h.error.ErrorMatches?) + Bit(Counterfactual in h.supporting)
  }

  /** Less evidence, or as much and further before the incident. */
  predicate Weaker(a: Hypothesis, b: Hypothesis) {
    Weight(a) < Weight(b) || (Weight(a) == Weight(b) && a.before > b.before)
  }

  predicate Ranked(hs: seq<Hypothesis>) {
    forall i, j :: 0 <= i < j < |hs| ==> !Weaker(hs[i], hs[j])
  }

  lemma WeakerOrders()
    ensures Sorting.Orders(Weaker)
  {
  }

  /** Strongest first; equals keep their order. */
  function Rank(hs: seq<Hypothesis>): (r: seq<Hypothesis>)
    ensures Ranked(r) && multiset(r) == multiset(hs) && |r| == |hs|
  {
    WeakerOrders();
    Sorting.SortInOrder(Weaker, hs);
    Sorting.SortKeeps(Weaker, hs);
    Sorting.Sort(Weaker, hs)
  }

  predicate Convincing(t: Tier) { t.Strong? || t.Moderate? }

  /** The first convincing hypothesis, or the length. */
  function LeaderIndex(hs: seq<Hypothesis>): (i: nat)
    ensures i <= |hs| && (i < |hs| ==> Convincing(hs[i].tier))
    ensures forall j :: 0 <= j < i ==> !Convincing(hs[j].tier)
  {
    if hs == [] then 0
    else
      var i := LeaderIndex(Front(hs));
      if i < |Front(hs)| || Convincing(Last(hs).tier) then i else |hs|
  }

  function Shortlist(r: Rules, hs: seq<Hypothesis>): seq<Hypothesis> {
    if |hs| > r.shortlist then hs[..r.shortlist] else hs
  }

  function Numbered(hs: seq<Hypothesis>): seq<Hypothesis> {
    var leader := LeaderIndex(hs);
    seq(|hs|, i requires 0 <= i < |hs| => hs[i].(rank := i + 1, isLeading := i == leader))
  }

  /** The shortlist, its leader, and the overall tier. */
  datatype Outcome = Outcome(overall: Tier, leading: Option<Hypothesis>, candidates: seq<Hypothesis>)

  function OutcomeOf(short: seq<Hypothesis>): Outcome {
    var leader, candidates := LeaderIndex(short), Numbered(short);
    if leader < |short| then Outcome(short[leader].tier, Some(candidates[leader]), candidates)
    else Outcome(Insufficient, None, candidates)
  }

  function Decide(r: Rules, hs: seq<Hypothesis>): Outcome { OutcomeOf(Shortlist(r, Rank(hs))) }

  datatype Result = Result(version: nat, analysisVersion: int, outcome: Outcome, rejected: seq<Rejection>)

  function Conclude(r: Rules, x: Input, version: nat): Result {
    Result(version, x.incident.analysis.version, Decide(r, Hypotheses(r, x)), Rejected(r, x.incident, x.events))
  }
}
