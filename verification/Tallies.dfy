/** Narrowing in numbers of events: what the analysis reports, ranks and rejects, stated on
    how many events of the two windows fall in a segment. */
module Tallies {
  import opened Options
  import opened Folds
  import opened Rollups
  import opened Segments
  import opened Narrowing
  import opened Observations
  import opened Analyzer
  import opened SegmentCounts
  import Conservation
  import Fractions

  // ---- counting -------------------------------------------------------------

  /** The event has every value the segment fixes. */
  predicate In(e: PaymentEvent, c: Segment) {
    && (c.region.Some? ==> e.region == c.region.value)
    && (c.paymentMethod.Some? ==> e.paymentMethod == c.paymentMethod.value)
    && (c.version.Some? ==> e.version == c.version.value)
  }

  function InSegment(c: Segment): PaymentEvent -> bool { e => In(e, c) }
  function FailedInSegment(c: Segment): PaymentEvent -> bool { e => In(e, c) && e.outcome.TechnicalError? }

  /** x of n current events and y of m baseline events failed. */
  datatype Tally = Tally(x: nat, n: nat, y: nat, m: nat)

  function TallyOf(current: seq<PaymentEvent>, baseline: seq<PaymentEvent>, c: Segment): Tally {
    Tally(CountIf(current, FailedInSegment(c)), CountIf(current, InSegment(c)),
          CountIf(baseline, FailedInSegment(c)), CountIf(baseline, InSegment(c)))
  }

  function SingleSegment(d: Dimension): string -> Segment { v => WHOLE.With(d, Some(v)) }

  /** The tables of a window counted from es, in some order of rows. */
  ghost predicate Tabulated(w: Window, es: seq<PaymentEvent>) {
    && Tabulates(w.combinations, es)
    && (forall d: Dimension :: SinglesTabulated(w, es, d))
  }

  ghost predicate SinglesTabulated(w: Window, es: seq<PaymentEvent>, d: Dimension) {
    AsMap(w.dimensions.Of(d)) == Conservation.Rolled(Conservation.Singles(Recount(es), d), SingleSegment(d))
  }

  function PartOf(d: Dimension): Slot -> Segment { s => WHOLE.With(d, Some(Conservation.Component(d, s))) }

  lemma SinglesRolled(es: seq<PaymentEvent>, d: Dimension)
    ensures Conservation.Rolled(Conservation.Singles(Recount(es), d), SingleSegment(d))
      == Conservation.Rolled(Conservation.Combinations(Recount(es)), PartOf(d))
  {
    PlusMonoid();
    Conservation.PartsSumToWhole(es, d);
    RollUpTwice(Conservation.Combinations(Recount(es)), Conservation.ComponentOf(d), SingleSegment(d), PartOf(d),
                Plus, ZERO);
  }

  /** The counter of a segment counts its events, and it exists when there are some. */
  ghost predicate CountsSegment(m: map<Segment, Counter>, es: seq<PaymentEvent>, c: Segment) {
    && (c in m <==> CountIf(es, InSegment(c)) > 0)
    && At(m, c, ZERO).attempts == CountIf(es, InSegment(c)) && At(m, c, ZERO).errors == CountIf(es, FailedInSegment(c))
  }

  lemma GroupCounts(es: seq<PaymentEvent>, p: Slot -> Segment, c: Segment)
    requires forall e :: p(Conservation.Triple(e)) == c <==> In(e, c)
    ensures CountsSegment(Conservation.Rolled(Conservation.Combinations(Recount(es)), p), es, c)
  {
    Conservation.RolledCounts(es, p, c);
    Conservation.RolledKeys(es, p, c);
    SameCount(es, Conservation.InGroup(p, c), InSegment(c));
    SameCount(es, Conservation.FailedInGroup(p, c), FailedInSegment(c));
  }

  lemma SingleCounts(w: Window, es: seq<PaymentEvent>, c: Segment)
    requires Size(c) == 1 && SinglesTabulated(w, es, TheDimension(c))
    ensures CountsSegment(AsMap(w.dimensions.Of(TheDimension(c))), es, c)
  {
    var d := TheDimension(c);
    SinglesRolled(es, d);
    forall e ensures PartOf(d)(Conservation.Triple(e)) == c <==> In(e, c) {
      assert WHOLE.With(d, c.Of(d)) == c;
    }
    GroupCounts(es, PartOf(d), c);
  }

  lemma CombinationCounts(w: Window, es: seq<PaymentEvent>, c: Segment)
    requires Tabulates(w.combinations, es)
    ensures CountsSegment(RolledTo(w.combinations, DimensionsOf(c)), es, c)
  {
    var ds := DimensionsOf(c);
    RolledOnce(es, w.combinations, ds);
    forall e ensures Projected(ds)(Conservation.Triple(e)) == c <==> In(e, c) {
      SlotOfEvent(e);
    }
    GroupCounts(es, Projected(ds), c);
  }

  lemma CountersCount(w: Window, es: seq<PaymentEvent>, c: Segment)
    requires Tabulated(w, es) && Size(c) >= 1
    ensures CountsSegment(CountersOf(w, c), es, c)
  {
    if Size(c) == 1 {
      assert SinglesTabulated(w, es, TheDimension(c));
      SingleCounts(w, es, c);
    } else {
      CombinationCounts(w, es, c);
    }
  }

  lemma {:induction false} FewerFail(es: seq<PaymentEvent>, c: Segment)
    ensures CountIf(es, FailedInSegment(c)) <= CountIf(es, InSegment(c))
  {
    if es != [] {
      FewerFail(es[..|es|-1], c);
    }
  }

  // ---- the numbers of a finding -----------------------------------------------

  /** The baseline attempts, but one where there are none. */
  function Base(t: Tally): real { if t.m == 0 then 1.0 else t.m as real }

  /** The excess errors, times the baseline attempts. */
  function Surplus(t: Tally): real { t.x as real * Base(t) - t.y as real * t.n as real }

  function ExcessOf(t: Tally): real { Surplus(t) / Base(t) }

  function IncreaseOf(t: Tally): real
    requires t.n > 0
  {
    Surplus(t) / (t.n as real * Base(t))
  }

  predicate GatesMet(g: Gates, t: Tally) {
    && t.n >= g.minCurrentAttempts && t.m >= g.minBaselineAttempts && t.x >= g.minCurrentErrors
    && Surplus(t) >= g.minExcess * Base(t)
    && Surplus(t) >= g.minRateIncrease * (t.n as real * Base(t))
  }

  /** The gate named by a rejection is failed. */
  predicate Failed(g: Gates, t: Tally, r: Rejection) {
    match r
    case MinCurrentAttempts => t.n < g.minCurrentAttempts
    case MinBaselineAttempts => t.m < g.minBaselineAttempts
    case MinCurrentTechnicalErrors => t.x < g.minCurrentErrors
    case MinPositiveExcessErrors => Surplus(t) < g.minExcess * Base(t)
    case MinPracticalRateIncrease => Surplus(t) < g.minRateIncrease * (t.n as real * Base(t))
    case NoMeaningfulNarrowing => false
  }

  /** The finding shows the numbers of the tally. */
  predicate Shows(f: Finding, t: Tally) {
    && t.n > 0 && f.attempts == t.n && f.errors == t.x && f.baselineAttempts == t.m
    && f.excess == ExcessOf(t) && f.increase == IncreaseOf(t) && f.rate == t.x as real / t.n as real
  }

  lemma ExpectedExcess(x: real, n: real, y: real, m: real)
    requires m > 0.0
    ensures x - n * (y / m) == (x * m - y * n) / m
  {
    var q := y / m;
    assert q * m == y;
    assert (x - n * q) * m == x * m - n * (q * m);
    Fractions.QuotientIs(x - n * q, x * m - y * n, m);
  }

  /** What a candidate is made of. */
  predicate MadeOf(g: Gates, f: Finding, c: Segment, a: Counter, b: Counter) {
    && f.segment == c && f.attempts == a.attempts && f.errors == a.errors && f.baselineAttempts == b.attempts
    && f.rate == RateOf(a) && f.increase == RateOf(a) - RateOf(b)
    && f.excess == a.errors as real - a.attempts as real * RateOf(b)
    && f.reasons == Unless(f.attempts >= g.minCurrentAttempts, MinCurrentAttempts)
                    + Unless(f.baselineAttempts >= g.minBaselineAttempts, MinBaselineAttempts)
                    + Unless(f.errors >= g.minCurrentErrors, MinCurrentTechnicalErrors)
                    + Unless(f.excess >= g.minExcess, MinPositiveExcessErrors)
                    + Unless(f.increase >= g.minRateIncrease, MinPracticalRateIncrease)
  }

  lemma CandidateMadeOf(g: Gates, c: Segment, a: Counter, b: Counter)
    ensures MadeOf(g, Candidate(g, c, a, b), c, a, b)
  {
  }

  lemma RatesAre(a: Counter, b: Counter, t: Tally)
    requires t == Tally(a.errors, a.attempts, b.errors, b.attempts) && t.n > 0 && t.y <= t.m
    ensures RateOf(a) == t.x as real / t.n as real && RateOf(b) == t.y as real / Base(t)
  {
  }

  lemma NumbersAre(x: real, n: real, y: real, m: real)
    requires n > 0.0 && m > 0.0
    ensures n * m > 0.0
    ensures x - n * (y / m) == (x * m - y * n) / m && x / n - y / m == (x * m - y * n) / (n * m)
  {
    ExpectedExcess(x, n, y, m);
    Fractions.Difference(x, n, y, m);
  }

  lemma ExcessShown(a: Counter, b: Counter, t: Tally, excess: real)
    requires t == Tally(a.errors, a.attempts, b.errors, b.attempts) && t.n > 0 && t.y <= t.m
    requires excess == a.errors as real - a.attempts as real * RateOf(b)
    ensures excess == ExcessOf(t)
  {
    RatesAre(a, b, t);
    ExpectedExcess(t.x as real, t.n as real, t.y as real, Base(t));
  }

  lemma IncreaseShown(a: Counter, b: Counter, t: Tally, increase: real)
    requires t == Tally(a.errors, a.attempts, b.errors, b.attempts) && t.n > 0 && t.y <= t.m
    requires increase == RateOf(a) - RateOf(b)
    ensures increase == IncreaseOf(t)
  {
    RatesAre(a, b, t);
    Fractions.Difference(t.x as real, t.n as real, t.y as real, Base(t));
  }

  lemma FindingShows(g: Gates, f: Finding, c: Segment, a: Counter, b: Counter, t: Tally)
    requires MadeOf(g, f, c, a, b)
    requires t == Tally(a.errors, a.attempts, b.errors, b.attempts) && t.n > 0 && t.y <= t.m
    ensures Shows(f, t)
  {
    RatesAre(a, b, t);
    ExcessShown(a, b, t, f.excess);
    IncreaseShown(a, b, t, f.increase);
  }

  lemma ExcessGate(g: Gates, t: Tally)
    ensures ExcessOf(t) >= g.minExcess <==> Surplus(t) >= g.minExcess * Base(t)
  {
    Fractions.AtLeast(Surplus(t), Base(t), g.minExcess);
  }

  lemma IncreaseGate(g: Gates, t: Tally)
    requires t.n > 0
    ensures IncreaseOf(t) >= g.minRateIncrease <==> Surplus(t) >= g.minRateIncrease * (t.n as real * Base(t))
  {
    assert t.n as real * Base(t) > 0.0;
    Fractions.AtLeast(Surplus(t), t.n as real * Base(t), g.minRateIncrease);
  }

  /** The gate named by a rejection is failed by these numbers. */
  predicate FailedBy(g: Gates, n: nat, m: nat, x: nat, excess: real, increase: real, r: Rejection) {
    match r
    case MinCurrentAttempts => n < g.minCurrentAttempts
    case MinBaselineAttempts => m < g.minBaselineAttempts
    case MinCurrentTechnicalErrors => x < g.minCurrentErrors
    case MinPositiveExcessErrors => excess < g.minExcess
    case MinPracticalRateIncrease => increase < g.minRateIncrease
    case NoMeaningfulNarrowing => false
  }

  lemma FailedEither(g: Gates, t: Tally, r: Rejection)
    requires t.n > 0
    ensures FailedBy(g, t.n, t.m, t.x, ExcessOf(t), IncreaseOf(t), r) <==> Failed(g, t, r)
  {
    if r == MinPositiveExcessErrors {
      ExcessGate(g, t);
    } else if r == MinPracticalRateIncrease {
      IncreaseGate(g, t);
    }
  }

  /** A finding's reasons are exactly the failed gates, ... */
  lemma FindingReasons(g: Gates, f: Finding, c: Segment, a: Counter, b: Counter, t: Tally, r: Rejection)
    requires MadeOf(g, f, c, a, b) && Shows(f, t)
    ensures r in f.reasons <==> Failed(g, t, r)
  {
    FailedEither(g, t, r);
    ReasonsAre(g, f.attempts, f.baselineAttempts, f.errors, f.excess, f.increase, f.reasons, r);
  }

  lemma GatesMetIff(g: Gates, t: Tally)
    ensures GatesMet(g, t) <==> forall r :: !Failed(g, t, r)
  {
    if forall r :: !Failed(g, t, r) {
      assert !Failed(g, t, MinCurrentAttempts) && !Failed(g, t, MinBaselineAttempts);
      assert !Failed(g, t, MinCurrentTechnicalErrors) && !Failed(g, t, MinPositiveExcessErrors);
      assert !Failed(g, t, MinPracticalRateIncrease);
    }
  }

  /** ... and it is eligible when there are none. */
  lemma FindingEligible(g: Gates, f: Finding, c: Segment, a: Counter, b: Counter, t: Tally)
    requires MadeOf(g, f, c, a, b) && Shows(f, t)
    ensures f.Eligible() <==> GatesMet(g, t)
  {
    forall r ensures r in f.reasons <==> Failed(g, t, r) {
      FindingReasons(g, f, c, a, b, t, r);
    }
    GatesMetIff(g, t);
    NoReasons(f);
  }

  lemma NoReasons(f: Finding)
    ensures f.Eligible() <==> forall r :: r !in f.reasons
  {
    if f.reasons != [] {
      assert f.reasons[0] in f.reasons;
    }
  }

  lemma ReasonsAre(g: Gates, n: nat, m: nat, x: nat, excess: real, increase: real, reasons: seq<Rejection>,
                   r: Rejection)
    requires reasons == Unless(n >= g.minCurrentAttempts, MinCurrentAttempts)
                        + Unless(m >= g.minBaselineAttempts, MinBaselineAttempts)
                        + Unless(x >= g.minCurrentErrors, MinCurrentTechnicalErrors)
                        + Unless(excess >= g.minExcess, MinPositiveExcessErrors)
                        + Unless(increase >= g.minRateIncrease, MinPracticalRateIncrease)
    ensures r in reasons <==> FailedBy(g, n, m, x, excess, increase, r)
    ensures reasons == [] <==>
      && n >= g.minCurrentAttempts && m >= g.minBaselineAttempts && x >= g.minCurrentErrors
      && excess >= g.minExcess && increase >= g.minRateIncrease
  {
  }
}
