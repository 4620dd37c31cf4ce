/** A triple that is reported although it narrows nothing: where all the traffic is one
    combination, its pairs are as wide as its singles and are rejected, so the triple has
    no parent to be compared with. */
module OrphanTriple {
  import opened Lists
  import opened Options
  import opened Folds
  import opened Rollups
  import opened Conservation
  import opened Segments
  import Sorting
  import opened Narrowing
  import opened Observations
  import opened Analyzer

  function SingleOf(c: Segment, d: Dimension): Segment { WHOLE.With(d, c.Of(d)) }

  /** p fixes some of the dimensions of c to the same values. */
  predicate Part(p: Segment, c: Segment) { Size(p) >= 1 && p == Project(c, DimensionsOf(p)) }

  /** The book has the same numbers, and no objection, for every part of c. */
  ghost predicate Flat(book: Book, c: Segment, excess: real, rate: real) {
    && excess >= 0.0 && rate > 0.0
    && (forall p :: Part(p, c) ==> book(p).Some? && Even(book(p).value, excess, rate))
  }

  predicate Even(f: Finding, excess: real, rate: real) {
    f.Eligible() && f.excess == excess && f.rate == rate
  }

  /** With as much excess and as high a rate, only a demand for no improvement is met. */
  lemma EvenNarrows(g: Gates, f: Finding, p: Finding)
    requires f.excess == p.excess >= 0.0 && f.rate == p.rate > 0.0
    ensures Narrows(g, f, p) <==> g.improvement == 0.0
  {
    assert f.excess >= f.excess * g.retention;
    assert f.rate * (1.0 + g.improvement) == f.rate + f.rate * g.improvement;
    assert g.improvement > 0.0 ==> f.rate * g.improvement > 0.0;
  }

  lemma EvenParents(g: Gates, book: Book, seeds: Seeds, c: Segment, p: Segment, excess: real, rate: real, f: Finding)
    requires Flat(book, c, excess, rate) && Part(p, c) && Size(p) >= 2 && f in Parents(g, book, seeds, p)
    ensures Even(f, excess, rate)
  {
    var d := if f in Parent(g, book, seeds, p, Region) then Region
             else if f in Parent(g, book, seeds, p, Method) then Method else Version;
    assert f in Parent(g, book, seeds, p, d);
    assert Part(p.With(d, None), c);
  }

  /** A part is affected unless it has a parent and an improvement is asked for. */
  lemma EvenAffectedIff(g: Gates, book: Book, seeds: Seeds, c: Segment, p: Segment, excess: real, rate: real)
    requires Flat(book, c, excess, rate) && Part(p, c) && Seeded(seeds, c)
    ensures Affected(g, book, seeds, p) <==> Size(p) == 1 || Parents(g, book, seeds, p) == [] || g.improvement == 0.0
  {
    if Size(p) >= 2 {
      assert Seeded(seeds, p);
      var parents := Parents(g, book, seeds, p);
      if parents != [] {
        EvenParents(g, book, seeds, c, p, excess, rate, Strongest(parents));
        EvenNarrows(g, book(p).value, Strongest(parents));
      }
    }
  }

  lemma PairAffectedIff(g: Gates, book: Book, seeds: Seeds, c: Segment, d: Dimension, excess: real, rate: real)
    requires Flat(book, c, excess, rate) && Size(c) == 3 && Seeded(seeds, c)
    ensures Affected(g, book, seeds, c.With(d, None)) <==> g.improvement == 0.0
  {
    var pair := c.With(d, None);
    var e: Dimension := if d.Region? then Method else Region;
    var single := pair.With(e, None);
    EvenAffectedIff(g, book, seeds, c, pair, excess, rate);
    EvenAffectedIff(g, book, seeds, c, single, excess, rate);
    assert Parent(g, book, seeds, pair, e) == [book(single).value];
    assert book(single).value in Parents(g, book, seeds, pair);
  }

  /** The triple is affected; its pairs are exactly when no improvement is asked for; and
      with any improvement asked for, it narrows none of its singles. */
  lemma FlatTriple(g: Gates, book: Book, seeds: Seeds, c: Segment, excess: real, rate: real)
    requires Flat(book, c, excess, rate) && Size(c) == 3 && Seeded(seeds, c)
    ensures Affected(g, book, seeds, c)
    ensures forall d: Dimension :: Affected(g, book, seeds, c.With(d, None)) <==> g.improvement == 0.0
    ensures forall d: Dimension ::
      book(SingleOf(c, d)).Some? && (Narrows(g, book(c).value, book(SingleOf(c, d)).value) <==> g.improvement == 0.0)
  {
    forall d: Dimension ensures Affected(g, book, seeds, c.With(d, None)) <==> g.improvement == 0.0 {
      PairAffectedIff(g, book, seeds, c, d, excess, rate);
    }
    assert Part(c, c);
    forall d: Dimension
      ensures book(SingleOf(c, d)).Some?
      ensures Narrows(g, book(c).value, book(SingleOf(c, d)).value) <==> g.improvement == 0.0
    {
      assert Part(SingleOf(c, d), c);
      EvenNarrows(g, book(c).value, book(SingleOf(c, d)).value);
    }
    EvenAffectedIff(g, book, seeds, c, c, excess, rate);
    if g.improvement > 0.0 {
      assert Parents(g, book, seeds, c) == [];
    }
  }

  // ---- all the traffic in one combination -----------------------------------------

  /** A window in which every event falls in the combination c. */
  function Alone(c: Segment, x: Counter): Window {
    Window(PerDimension([Row(SingleOf(c, Region), x)], [Row(SingleOf(c, Method), x)], [Row(SingleOf(c, Version), x)]),
           [Row(c, x)])
  }

  lemma OneRow(c: Segment, x: Counter, ds: Mask)
    ensures AsMap([Row(c, x)]) == map[c := x]
    ensures RolledTo([Row(c, x)], ds) == map[Project(c, ds) := x]
  {
    var rows := [Row(c, x)];
    assert Front(rows) == [] && rows[..1] == rows && rows[..0] == [];
    assert RolledTo([], ds) == map[];
    RolledSnoc(rows, ds, 0);
    PlusUnit(x);
  }

  /** Then every part of c has the same counters. */
  lemma AloneBook(g: Gates, c: Segment, x: Counter, b: Counter, p: Segment)
    requires Part(p, c)
    ensures BookOf(g, Alone(c, x), Alone(c, b))(p) == Some(Candidate(g, p, x, b))
  {
    var current, baseline := Alone(c, x), Alone(c, b);
    if Size(p) == 1 {
      var d := TheDimension(p);
      assert p == SingleOf(c, d);
      OneRow(p, x, DimensionsOf(p));
      OneRow(p, b, DimensionsOf(p));
      assert current.dimensions.Of(d) == [Row(p, x)] && baseline.dimensions.Of(d) == [Row(p, b)];
    } else {
      OneRow(c, x, DimensionsOf(p));
      OneRow(c, b, DimensionsOf(p));
    }
    EntryIs(g, current, baseline, p, x, b);
  }

  lemma MetAll(g: Gates, c: Segment, x: Counter, b: Counter)
    requires Candidate(g, c, x, b).Eligible()
    ensures x.attempts >= g.minCurrentAttempts && x.errors >= g.minCurrentErrors
    ensures Candidate(g, c, x, b).excess >= g.minExcess
  {
    assert |Candidate(g, c, x, b).reasons| == 0;
  }

  lemma AloneFlat(g: Gates, c: Segment, x: Counter, b: Counter)
    requires Candidate(g, c, x, b).Eligible()
    ensures Flat(BookOf(g, Alone(c, x), Alone(c, b)), c, Candidate(g, c, x, b).excess, Candidate(g, c, x, b).rate)
  {
    var f := Candidate(g, c, x, b);
    MetAll(g, c, x, b);
    forall p | Part(p, c)
      ensures BookOf(g, Alone(c, x), Alone(c, b))(p).Some?
      ensures Even(BookOf(g, Alone(c, x), Alone(c, b))(p).value, f.excess, f.rate)
    {
      AloneBook(g, c, x, b, p);
    }
  }

  // ---- what the analysis reports ------------------------------------------------

  lemma AllFail(c: Counter)
    requires c.errors == c.attempts > 0
    ensures RateOf(c) == 1.0
  {
    var n := c.attempts as real;
    assert n > 0.0 && n / n == 1.0;
  }

  lemma NoneFail(c: Counter)
    requires c.errors == 0
    ensures RateOf(c) == 0.0
  {
    if c.attempts > 0 {
      var n := c.attempts as real;
      assert n > 0.0 && 0.0 / n == 0.0;
    }
  }

  lemma TimeoutsTotal(c: Counter)
    requires c.codes == map["TIMEOUT" := c.errors]
    ensures CodeTotal(c) == c.errors
  {
    CodesMonoid();
    FoldAdd(ZERO.codes, "TIMEOUT", c.errors, AddNat, 0);
    assert c.codes == ZERO.codes["TIMEOUT" := AddNat(At(ZERO.codes, "TIMEOUT", 0), c.errors)];
  }

  lemma FailingPasses(g: Gates, c: Segment, x: Counter, b: Counter)
    requires RateOf(x) == 1.0 && RateOf(b) == 0.0
    requires x.attempts == x.errors && x.attempts >= g.minCurrentAttempts && x.errors >= g.minCurrentErrors
    requires x.errors as real >= g.minExcess && b.attempts >= g.minBaselineAttempts
    ensures Candidate(g, c, x, b).Eligible()
  {
    assert x.attempts as real * RateOf(b) == 0.0;
  }

  /** All current attempts fail and none of the baseline's: enough of them pass any gates. */
  lemma FailingTraffic(g: Gates, c: Segment) returns (x: Counter, b: Counter)
    ensures Balanced(x) && Balanced(b) && Candidate(g, c, x, b).Eligible()
  {
    var n: nat := g.minCurrentAttempts + g.minCurrentErrors + g.minExcess.Floor + 1;
    x := Counter(n, 0, 0, n, map["TIMEOUT" := n], multiset{}[0.0 := n]);
    b := Counter(g.minBaselineAttempts, g.minBaselineAttempts, 0, 0, map[], multiset{}[0.0 := g.minBaselineAttempts]);
    TimeoutsTotal(x);
    AllFail(x);
    NoneFail(b);
    FailingPasses(g, c, x, b);
  }

  lemma OneIsRanked(f: Finding)
    requires f.Eligible()
    ensures Rank(Passing([f])) == [f]
  {
    assert Front([f]) == [] && Last([f]) == f;
    assert Passing([]) == [] && Passing([f]) == [f];
    assert Sorting.Sort(Weaker, []) == [] && Sorting.Place(Weaker, f, []) == [f];
  }

  lemma AloneSeeds(g: Gates, c: Segment, x: Counter, b: Counter, d: Dimension)
    requires Candidate(g, c, x, b).Eligible()
    ensures Leading(g, Alone(c, x), Alone(c, b), d) == [Candidate(g, SingleOf(c, d), x, b)]
  {
    var rows, base := [Row(SingleOf(c, d), x)], [Row(SingleOf(c, d), b)];
    assert Alone(c, x).dimensions.Of(d) == rows && Alone(c, b).dimensions.Of(d) == base;
    assert Front(rows) == [] && Find(base, SingleOf(c, d)) == b;
    assert Findings(g, rows, base) == [Candidate(g, SingleOf(c, d), x, b)];
    OneIsRanked(Candidate(g, SingleOf(c, d), x, b));
  }

  lemma SeedIn(ranked: PerDimension<seq<Finding>>, d: Dimension, f: Finding)
    requires ranked.Of(d) == [f] && f.segment.Of(d).Some?
    ensures f.segment.Of(d).value in SeedsOf(ranked).Of(d)
  {
    assert f in ranked.Of(d);
  }

  lemma AloneSeed(g: Gates, c: Segment, x: Counter, b: Counter, ranked: PerDimension<seq<Finding>>, d: Dimension)
    requires c.Of(d).Some? && Candidate(g, c, x, b).Eligible()
    requires ranked.Of(d) == Leading(g, Alone(c, x), Alone(c, b), d)
    ensures c.Of(d).value in SeedsOf(ranked).Of(d)
  {
    AloneSeeds(g, c, x, b, d);
    var f := Candidate(g, SingleOf(c, d), x, b);
    assert f.segment.Of(d) == c.Of(d);
    SeedIn(ranked, d, f);
  }

  lemma InAll(d: Dimension)
    ensures d in ALL
  {
  }

  lemma AloneSeeded(g: Gates, c: Segment, x: Counter, b: Counter, ranked: PerDimension<seq<Finding>>)
    requires Candidate(g, c, x, b).Eligible()
    requires RankedOver(g, Alone(c, x), Alone(c, b), ALL, ranked)
    ensures Seeded(SeedsOf(ranked), c)
  {
    forall d: Dimension | c.Of(d).Some? ensures c.Of(d).value in SeedsOf(ranked).Of(d) {
      InAll(d);
      AloneSeed(g, c, x, b, ranked, d);
    }
  }

  /** So under any gates that ask for an improvement there are windows whose analysis
      reports a triple that narrows none of its singles. */
  lemma OrphanTripleReported(g: Gates, c: Segment) returns (x: Counter, b: Counter)
    requires Size(c) == 3 && g.improvement > 0.0
    ensures Balanced(x) && Balanced(b) && Shaped(Alone(c, x)) && Shaped(Alone(c, b))
    ensures forall r :: Explains(g, Alone(c, x), Alone(c, b), r) ==>
      ReportedUnnarrowed(g, BookOf(g, Alone(c, x), Alone(c, b)), c, r)
  {
    x, b := FailingTraffic(g, c);
    forall r | Explains(g, Alone(c, x), Alone(c, b), r)
      ensures ReportedUnnarrowed(g, BookOf(g, Alone(c, x), Alone(c, b)), c, r)
    {
      AloneSeeded(g, c, x, b, r.rankedDimensions);
      AloneFlat(g, c, x, b);
      FlatReported(g, BookOf(g, Alone(c, x), Alone(c, b)), c, Candidate(g, c, x, b).excess, Candidate(g, c, x, b).rate,
                   r);
    }
  }

  ghost predicate ReportedUnnarrowed(g: Gates, book: Book, c: Segment, r: Analysis) {
    && book(c).Some? && book(c).value in r.rankedCombinations
    && (forall d: Dimension :: book(SingleOf(c, d)).Some? && !Narrows(g, book(c).value, book(SingleOf(c, d)).value))
  }

  lemma FlatReported(g: Gates, book: Book, c: Segment, excess: real, rate: real, r: Analysis)
    requires Flat(book, c, excess, rate) && Size(c) == 3 && Seeded(SeedsOf(r.rankedDimensions), c)
    requires Told(g, book, r) && g.improvement > 0.0
    ensures ReportedUnnarrowed(g, book, c, r)
  {
    FlatTriple(g, book, SeedsOf(r.rankedDimensions), c, excess, rate);
    assert c in Keys(r.rankedCombinations);
    var f :| f in r.rankedCombinations && f.segment == c;
    assert book(f.segment) == Some(f);
  }
}
