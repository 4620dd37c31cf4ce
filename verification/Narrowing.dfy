/** Dimensional narrowing: which segments of the traffic carry the errors.  Singles pass
    the gates, the strongest of them seed the combinations, and a combination has to
    narrow its strongest accepted parent. */
module Narrowing {
  import opened Lists
  import opened Options
  import opened Rollups
  import opened Segments
  import Sorting

  datatype GateData = Gates(
    minCurrentAttempts: int,
    minBaselineAttempts: int,
    minCurrentErrors: int,
    minExcess: real,
    minRateIncrease: real,
    seedTopN: nat,
    retention: real,
    improvement: real
  ) {
    predicate Valid() {
      && minCurrentAttempts >= 1 && minBaselineAttempts >= 1 && minCurrentErrors >= 1
      && minExcess >= 0.0
      && 0.0 <= minRateIncrease < 1.0
      && 1 <= seedTopN <= 10
      && 0.0 < retention <= 1.0
      && 0.0 <= improvement <= 1.0
    }
  }

  /** The gates as validation lets them through; the witness is the default. */
  type Gates = g: GateData | g.Valid()
    witness Gates(30, 100, 5, 3.0, 0.03, 3, 0.65, 0.10)

  datatype Rejection =
    | MinCurrentAttempts
    | MinBaselineAttempts
    | MinCurrentTechnicalErrors
    | MinPositiveExcessErrors
    | MinPracticalRateIncrease
    | NoMeaningfulNarrowing

  datatype Finding = Finding(
    segment: Segment,
    attempts: nat,
    errors: nat,
    rate: real,
    baselineAttempts: nat,
    excess: real,
    increase: real,
    reasons: seq<Rejection>
  ) {
    predicate Eligible() { reasons == [] }
  }

  /** Errors per attempt; zero without attempts. */
  function RateOf(c: Counter): real {
    if c.attempts == 0 then 0.0 else c.errors as real / c.attempts as real
  }

  function Unless(met: bool, reason: Rejection): seq<Rejection> { if met then [] else [reason] }

  function Candidate(g: Gates, c: Segment, current: Counter, baseline: Counter): Finding {
    var excess := current.errors as real - current.attempts as real * RateOf(baseline);
    var increase := RateOf(current) - RateOf(baseline);
    Finding(c, current.attempts, current.errors, RateOf(current), baseline.attempts, excess, increase,
            Unless(current.attempts >= g.minCurrentAttempts, MinCurrentAttempts)
            + Unless(baseline.attempts >= g.minBaselineAttempts, MinBaselineAttempts)
            + Unless(current.errors >= g.minCurrentErrors, MinCurrentTechnicalErrors)
            + Unless(excess >= g.minExcess, MinPositiveExcessErrors)
            + Unless(increase >= g.minRateIncrease, MinPracticalRateIncrease))
  }

  // ---- ranking --------------------------------------------------------------

  /** Excess first, then rate increase, then attempts. */
  predicate Weaker(a: Finding, b: Finding) {
    || a.excess < b.excess
    || (a.excess == b.excess && a.increase < b.increase)
    || (a.excess == b.excess && a.increase == b.increase && a.attempts < b.attempts)
  }

  predicate Ranked(fs: seq<Finding>) {
    forall i, j :: 0 <= i < j < |fs| ==> !Weaker(fs[i], fs[j])
  }

  lemma WeakerOrders()
    ensures Sorting.Orders(Weaker)
  {
  }

  /** Strongest first; equals keep their order. */
  function Rank(fs: seq<Finding>): (r: seq<Finding>)
    ensures Ranked(r) && multiset(r) == multiset(fs)
  {
    WeakerOrders();
    Sorting.SortInOrder(Weaker, fs);
    Sorting.SortKeeps(Weaker, fs);
    Sorting.Sort(Weaker, fs)
  }

  function Top(n: nat, fs: seq<Finding>): seq<Finding> {
    if |fs| <= n then fs else fs[..n]
  }

  /** What is cut off is no stronger than anything kept. */
  lemma TopKeepsStrongest(n: nat, fs: seq<Finding>, f: Finding)
    requires n >= 1 && f in fs
    ensures var kept := Top(n, Rank(fs));
      && kept != []
      && (f in kept || !Weaker(kept[0], f))
  {
    assert f in multiset(Rank(fs));
    var i :| 0 <= i < |Rank(fs)| && Rank(fs)[i] == f;
  }

  lemma TopKeepsOnly(n: nat, fs: seq<Finding>, f: Finding)
    requires f in Top(n, Rank(fs))
    ensures f in fs
  {
    assert f in multiset(Rank(fs));
  }

  // ---- what narrowing means -------------------------------------------------

  /** The finding of each observed segment, before narrowing. */
  type Book = Segment -> Option<Finding>

  type Seeds = PerDimension<set<string>>

  predicate Seeded(seeds: Seeds, c: Segment) {
    forall d: Dimension :: c.Of(d).Some? ==> c.Of(d).value in seeds.Of(d)
  }

  /** The first of those with the greatest excess. */
  function Strongest(fs: seq<Finding>): (r: Finding)
    requires fs != []
    ensures r in fs && forall f :: f in fs ==> f.excess <= r.excess
  {
    if |fs| == 1 then fs[0]
    else
      assert fs == Front(fs) + [Last(fs)];
      var r := Strongest(Front(fs));
      if Last(fs).excess > r.excess then Last(fs) else r
  }

  predicate Narrows(g: Gates, f: Finding, parent: Finding) {
    && f.excess >= parent.excess * g.retention
    && f.rate >= parent.rate * (1.0 + g.improvement)
  }

  /** Without a parent nothing has to be narrowed. */
  predicate Keeps(g: Gates, f: Finding, parents: seq<Finding>) {
    parents == [] || Narrows(g, f, Strongest(parents))
  }

  /** The rule, free of any order of evaluation: a single is affected when it passes the
      gates; a combination when it passes them, all its values are seeds, and it narrows
      the strongest of its affected parents, if there is one. */
  predicate Affected(g: Gates, book: Book, seeds: Seeds, c: Segment)
    decreases Size(c), 1
  {
    && book(c).Some? && book(c).value.Eligible()
    && (Size(c) >= 2 ==> Seeded(seeds, c) && Keeps(g, book(c).value, Parents(g, book, seeds, c)))
  }

  function Parents(g: Gates, book: Book, seeds: Seeds, c: Segment): seq<Finding>
    decreases Size(c), 0
  {
    Parent(g, book, seeds, c, Region) + Parent(g, book, seeds, c, Method) + Parent(g, book, seeds, c, Version)
  }

  function Parent(g: Gates, book: Book, seeds: Seeds, c: Segment, d: Dimension): (r: seq<Finding>)
    ensures c.Of(d).None? ==> r == []
    decreases Size(c), 0, 0
  {
    if c.Of(d).Some? && Affected(g, book, seeds, c.With(d, None)) then [book(c.With(d, None)).value] else []
  }
}
