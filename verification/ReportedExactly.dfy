/** Which segments the analysis reports, decided by the numbers of their events. */
module ReportedExactly {
  import opened Lists
  import opened Options
  import opened Rollups
  import opened Segments
  import opened Narrowing
  import opened Observations
  import opened Analyzer
  import opened Tallies
  import opened TallyReports

  /** Whether a segment passes the gates. */
  type Pass = Segment -> bool

  function PassIn(g: Gates, w: Traffic): Pass { c => Size(c) >= 1 && GatesMet(g, w.Of(c)) }

  function Position(d: Dimension): nat {
    match d case Region => 0 case Method => 1 case Version => 2
  }

  /** The numbers of all segments, and the seeds. */
  datatype View = View(pass: Pass, excess: Measure, rate: Measure, seeds: Seeds) {
    /** The segment is hit: it passes the gates, and a combination has values that are seeds
        and narrows the first of its hit parts with the most excess, if it has hit parts. */
    predicate Hit(g: Gates, c: Segment)
      decreases Size(c), 2
    {
      && pass(c)
      && (Size(c) >= 2 ==>
            && Seeded(seeds, c)
            && forall d: Dimension :: Foremost(g, c, d) ==> NarrowsPart(g, this, c, d))
    }

    /** The part of c without d is hit. */
    predicate HitPart(g: Gates, c: Segment, d: Dimension)
      decreases Size(c), 0
    {
      c.Of(d).Some? && Hit(g, c.With(d, None))
    }

    predicate Foremost(g: Gates, c: Segment, d: Dimension)
      decreases Size(c), 1
    {
      HitPart(g, c, d) && forall e: Dimension :: HitPart(g, c, e) ==> Before(c, d, e)
    }

    /** The part without d comes before the part without e, or is the same. */
    predicate Before(c: Segment, d: Dimension, e: Dimension) {
      || excess(c.With(d, None)) > excess(c.With(e, None))
      || (excess(c.With(d, None)) == excess(c.With(e, None)) && Position(d) <= Position(e))
    }
  }

  ghost predicate Matches(book: Book, v: View) {
    Measured(book, v.excess, v.rate) && forall c :: v.pass(c) <==> book(c).Some? && book(c).value.Eligible()
  }

  ghost predicate PartsMatch(g: Gates, book: Book, v: View, c: Segment) {
    forall d: Dimension :: c.Of(d).Some? ==>
      (Affected(g, book, v.seeds, c.With(d, None)) <==> v.Hit(g, c.With(d, None)))
  }

  /** Of at most three findings, the first with the most excess. */
  lemma StrongestOfThree(a: seq<Finding>, b: seq<Finding>, c: seq<Finding>)
    requires |a| <= 1 && |b| <= 1 && |c| <= 1 && a + b + c != []
    ensures Strongest(a + b + c) ==
      if a != [] && (b != [] ==> a[0].excess >= b[0].excess) && (c != [] ==> a[0].excess >= c[0].excess) then a[0]
      else if b != [] && (c != [] ==> b[0].excess >= c[0].excess) then b[0]
      else c[0]
  {
    var fs := a + b + c;
    if |fs| == 2 {
      assert Front(fs) == [fs[0]] && Last(fs) == fs[1];
    } else if |fs| == 3 {
      assert Front(fs) == [fs[0], fs[1]] && Last(fs) == fs[2];
      assert Front([fs[0], fs[1]]) == [fs[0]];
    }
  }

  function PartFinding(book: Book, c: Segment, d: Dimension): seq<Finding> {
    if book(c.With(d, None)).Some? then [book(c.With(d, None)).value] else []
  }

  /** The findings of the hit parts are what the combination is compared with. */
  lemma ParentIsPart(g: Gates, book: Book, v: View, c: Segment, d: Dimension)
    requires Matches(book, v) && PartsMatch(g, book, v, c)
    ensures Parent(g, book, v.seeds, c, d) == if v.HitPart(g, c, d) then PartFinding(book, c, d) else []
    ensures v.HitPart(g, c, d) ==>
      book(c.With(d, None)).Some? && book(c.With(d, None)).value.excess == v.excess(c.With(d, None))
  {
    if v.HitPart(g, c, d) {
      assert MeasuredAt(book(c.With(d, None)).value, v.excess(c.With(d, None)), v.rate(c.With(d, None)));
    }
  }

  /** The finding, if there is one, has less excess than f, or as much where that will do. */
  predicate NotBefore(fs: seq<Finding>, f: Finding, orEqual: bool) {
    fs == [] || fs[0].excess < f.excess || (orEqual && fs[0].excess == f.excess)
  }

  lemma StrongestIs(fs: PerDimension<seq<Finding>>, d: Dimension)
    requires |fs.region| <= 1 && |fs.paymentMethod| <= 1 && |fs.version| <= 1 && fs.Of(d) != []
    requires forall e: Dimension :: e != d ==> NotBefore(fs.Of(e), fs.Of(d)[0], Position(d) < Position(e))
    ensures Strongest(fs.region + fs.paymentMethod + fs.version) == fs.Of(d)[0]
  {
    StrongestOfThree(fs.region, fs.paymentMethod, fs.version);
    assert d != Region ==> NotBefore(fs.Of(Region), fs.Of(d)[0], false);
    assert d != Method ==> NotBefore(fs.Of(Method), fs.Of(d)[0], Position(d) < 1);
    assert d != Version ==> NotBefore(fs.Of(Version), fs.Of(d)[0], true);
  }

  function ParentsBy(g: Gates, book: Book, seeds: Seeds, c: Segment): PerDimension<seq<Finding>> {
    PerDimension(Parent(g, book, seeds, c, Region), Parent(g, book, seeds, c, Method),
                 Parent(g, book, seeds, c, Version))
  }

  lemma ForemostIsStrongest(g: Gates, book: Book, v: View, c: Segment, d: Dimension)
    requires Matches(book, v) && PartsMatch(g, book, v, c) && v.Foremost(g, c, d)
    ensures Parents(g, book, v.seeds, c) != [] && book(c.With(d, None)).Some?
    ensures Strongest(Parents(g, book, v.seeds, c)) == book(c.With(d, None)).value
  {
    ParentIsPart(g, book, v, c, d);
    forall e: Dimension | e != d
      ensures NotBefore(Parent(g, book, v.seeds, c, e), book(c.With(d, None)).value, Position(d) < Position(e))
    {
      ParentIsPart(g, book, v, c, e);
      assert v.HitPart(g, c, e) ==> v.Before(c, d, e);
    }
    StrongestIs(ParentsBy(g, book, v.seeds, c), d);
  }

  function Best2(v: View, c: Segment, d: Dimension, e: Dimension): (f: Dimension)
    ensures f in {d, e} && v.Before(c, f, d) && v.Before(c, f, e)
  {
    if v.Before(c, d, e) then d else e
  }

  /** Where some part is hit, one is foremost. */
  lemma SomeForemost(g: Gates, v: View, c: Segment, d: Dimension) returns (f: Dimension)
    requires v.HitPart(g, c, d)
    ensures v.Foremost(g, c, f)
  {
    f := d;
    if v.HitPart(g, c, Region) {
      f := Best2(v, c, f, Region);
    }
    if v.HitPart(g, c, Method) {
      f := Best2(v, c, f, Method);
    }
    if v.HitPart(g, c, Version) {
      f := Best2(v, c, f, Version);
    }
    forall e: Dimension | v.HitPart(g, c, e) ensures v.Before(c, f, e) {
      match e case Region => case Method => case Version =>
    }
  }

  /** The combination narrows its part without d. */
  predicate NarrowsPart(g: Gates, v: View, c: Segment, d: Dimension) {
    NarrowsBy(v.excess, v.rate, c, c.With(d, None), g.retention, 1.0 + g.improvement)
  }

  lemma NarrowsPartIff(g: Gates, book: Book, v: View, c: Segment, d: Dimension)
    requires Measured(book, v.excess, v.rate) && book(c).Some? && book(c.With(d, None)).Some?
    ensures NarrowsPart(g, v, c, d) <==> Narrows(g, book(c).value, book(c.With(d, None)).value)
  {
    NarrowsMeasured(book, v.excess, v.rate, c, c.With(d, None), g.retention, 1.0 + g.improvement);
  }

  lemma KeepsAt(g: Gates, book: Book, v: View, c: Segment, d: Dimension)
    requires Matches(book, v) && PartsMatch(g, book, v, c) && book(c).Some? && v.Foremost(g, c, d)
    ensures Keeps(g, book(c).value, Parents(g, book, v.seeds, c)) <==> NarrowsPart(g, v, c, d)
  {
    ForemostIsStrongest(g, book, v, c, d);
    NarrowsPartIff(g, book, v, c, d);
  }

  lemma NothingToKeep(g: Gates, book: Book, v: View, c: Segment)
    requires Matches(book, v) && PartsMatch(g, book, v, c) && forall d: Dimension :: !v.HitPart(g, c, d)
    ensures Parents(g, book, v.seeds, c) == []
  {
    ParentIsPart(g, book, v, c, Region);
    ParentIsPart(g, book, v, c, Method);
    ParentIsPart(g, book, v, c, Version);
  }

  lemma KeepsIff(g: Gates, book: Book, v: View, c: Segment)
    requires Matches(book, v) && PartsMatch(g, book, v, c) && book(c).Some?
    ensures Keeps(g, book(c).value, Parents(g, book, v.seeds, c)) <==>
      forall d: Dimension :: v.Foremost(g, c, d) ==> NarrowsPart(g, v, c, d)
  {
    if d: Dimension :| v.HitPart(g, c, d) {
      var f := SomeForemost(g, v, c, d);
      forall e: Dimension | v.Foremost(g, c, e)
        ensures Keeps(g, book(c).value, Parents(g, book, v.seeds, c)) <==> NarrowsPart(g, v, c, e)
      {
        KeepsAt(g, book, v, c, e);
      }
    } else {
      NothingToKeep(g, book, v, c);
    }
  }

  /** What is affected is what is hit. */
  lemma {:induction false} AffectedIffHit(g: Gates, book: Book, v: View, c: Segment)
    requires Matches(book, v)
    ensures Affected(g, book, v.seeds, c) <==> v.Hit(g, c)
    decreases Size(c)
  {
    forall d: Dimension | c.Of(d).Some?
      ensures Affected(g, book, v.seeds, c.With(d, None)) <==> v.Hit(g, c.With(d, None))
    {
      AffectedIffHit(g, book, v, c.With(d, None));
    }
    if book(c).Some? {
      KeepsIff(g, book, v, c);
    }
  }

  // ---- windows tabulated from events -------------------------------------------------

  lemma NoRows(ds: Mask)
    ensures RolledTo([], ds) == map[]
  {
  }

  /** A segment that passes the gates has a finding, and one with an eligible finding passes them. */
  lemma PassIff(g: Gates, current: Window, baseline: Window, w: Traffic, c: Segment)
    requires Tabulated(current, w.now) && Tabulated(baseline, w.before)
    ensures var book := BookOf(g, current, baseline);
      PassIn(g, w)(c) <==> book(c).Some? && book(c).value.Eligible()
  {
    var book := BookOf(g, current, baseline);
    BookRight(g, current, baseline, w);
    if book(c).Some? {
      assert RightAt(g, w.Of(c), c, book(c).value);
    } else if Size(c) >= 1 && GatesMet(g, w.Of(c)) {
      CountersCount(current, w.now, c);
      CountersCount(baseline, w.before, c);
      NoRows(DimensionsOf(c));
    }
  }

  function ViewOf(g: Gates, w: Traffic, seeds: Seeds): View { View(PassIn(g, w), ExcessIn(w), RateIn(w), seeds) }

  lemma ViewMatches(g: Gates, current: Window, baseline: Window, w: Traffic, seeds: Seeds)
    requires Tabulated(current, w.now) && Tabulated(baseline, w.before)
    ensures Matches(BookOf(g, current, baseline), ViewOf(g, w, seeds))
  {
    BookRight(g, current, baseline, w);
    RightMeasured(g, w, BookOf(g, current, baseline));
    forall c ensures PassIn(g, w)(c) <==>
      BookOf(g, current, baseline)(c).Some? && BookOf(g, current, baseline)(c).value.Eligible()
    {
      PassIff(g, current, baseline, w, c);
    }
  }

  /** Exactly the hit combinations are reported. */
  lemma ReportedIffHit(g: Gates, current: Window, baseline: Window, w: Traffic, r: Analysis, c: Segment)
    requires Tabulated(current, w.now) && Tabulated(baseline, w.before) && Explains(g, current, baseline, r)
    ensures (exists f :: f in r.rankedCombinations && f.segment == c) <==>
      Size(c) >= 2 && ViewOf(g, w, SeedsOf(r.rankedDimensions)).Hit(g, c)
  {
    var book, v := BookOf(g, current, baseline), ViewOf(g, w, SeedsOf(r.rankedDimensions));
    ViewMatches(g, current, baseline, w, v.seeds);
    AffectedIffHit(g, book, v, c);
    assert c in Keys(r.rankedCombinations) <==> exists f :: f in r.rankedCombinations && f.segment == c;
  }

  // ---- the ranked singles --------------------------------------------------------------

  /** What is cut off leaves a full list none of whose findings is weaker. */
  lemma CutOff(n: nat, fs: seq<Finding>, f: Finding)
    requires f in fs && f !in Top(n, Rank(fs))
    ensures |Top(n, Rank(fs))| == n && forall h :: h in Top(n, Rank(fs)) ==> !Weaker(h, f)
  {
    assert f in multiset(Rank(fs));
    var i :| 0 <= i < |Rank(fs)| && Rank(fs)[i] == f;
    forall h | h in Top(n, Rank(fs)) ensures !Weaker(h, f) {
      var j :| 0 <= j < |Top(n, Rank(fs))| && Top(n, Rank(fs))[j] == h;
      assert Rank(fs)[j] == h;
    }
  }

  /** What a dimension leaves out, for it had too many. */
  ghost predicate Full(g: Gates, ranked: seq<Finding>, f: Finding) {
    |ranked| == g.seedTopN && forall h :: h in ranked ==> !Weaker(h, f)
  }

  lemma LeadingOrFull(g: Gates, book: Book, d: Dimension, found: seq<Finding>, c: Segment)
    requires SinglesOf(book, d, found) && OnlyDimension(c, d) && book(c).Some? && book(c).value.Eligible()
    ensures var f, ranked := book(c).value, Top(g.seedTopN, Rank(Passing(found)));
      |ranked| <= g.seedTopN && (f in ranked || Full(g, ranked, f))
  {
    PassingAre(found);
    if book(c).value !in Top(g.seedTopN, Rank(Passing(found))) {
      CutOff(g.seedTopN, Passing(found), book(c).value);
    }
  }

  lemma NoneOutranks(g: Gates, w: Traffic, book: Book, ranked: seq<Finding>, f: Finding)
    requires Right(g, w, book) && FromBook(book, ranked) && Full(g, ranked, f) && book(f.segment) == Some(f)
    ensures forall h :: h in ranked ==> !Outranks(w.Of(f.segment), w.Of(h.segment))
  {
    forall h | h in ranked ensures !Outranks(w.Of(f.segment), w.Of(h.segment)) {
      assert RightAt(g, w.Of(h.segment), h.segment, h) && RightAt(g, w.Of(f.segment), f.segment, f);
      WeakerIs(h, f, w.Of(h.segment), w.Of(f.segment));
    }
  }

  /** The ranked singles of a dimension are no more than the configured number, and a single
      that passes the gates is left out only for as many that it does not outrank. */
  lemma RankedSingles(g: Gates, current: Window, baseline: Window, w: Traffic, r: Analysis, d: Dimension, c: Segment)
    requires Shaped(current) && Tabulated(current, w.now) && Tabulated(baseline, w.before)
    requires Explains(g, current, baseline, r) && OnlyDimension(c, d) && PassIn(g, w)(c)
    ensures var ranked := r.rankedDimensions.Of(d);
      && |ranked| <= g.seedTopN
      && ((exists f :: f in ranked && f.segment == c)
          || (|ranked| == g.seedTopN && forall h :: h in ranked ==> !Outranks(w.Of(c), w.Of(h.segment))))
  {
    var book := BookOf(g, current, baseline);
    AnalysisSound(g, current, baseline, w, r);
    PassIff(g, current, baseline, w, c);
    assert d in ALL && r.rankedDimensions.Of(d) == Leading(g, current, baseline, d);
    FindingsFiled(g, current, baseline, d);
    LeadingOrFull(g, book, d, Findings(g, current.dimensions.Of(d), baseline.dimensions.Of(d)), c);
    assert book(c).value.segment == c;
    if book(c).value !in r.rankedDimensions.Of(d) {
      assert Contributes(book, d, r.rankedDimensions.Of(d));
      NoneOutranks(g, w, book, r.rankedDimensions.Of(d), book(c).value);
    }
  }

  // ---- the best scope -------------------------------------------------------------------

  /** There is a best scope when anything is hit; it is hit itself, and nothing hit has more
      dimensions, or as many and outranks it. */
  lemma BestIsHit(g: Gates, current: Window, baseline: Window, w: Traffic, r: Analysis, c: Segment)
    requires Shaped(current) && Tabulated(current, w.now) && Tabulated(baseline, w.before)
    requires Explains(g, current, baseline, r)
    ensures var v := ViewOf(g, w, SeedsOf(r.rankedDimensions));
      && (r.best.Some? ==> v.Hit(g, r.best.value.segment))
      && (v.Hit(g, c) ==>
            && r.best.Some? && Size(c) <= Size(r.best.value.segment)
            && (Size(c) == Size(r.best.value.segment) ==> !Outranks(w.Of(c), w.Of(r.best.value.segment))))
  {
    var book, v := BookOf(g, current, baseline), ViewOf(g, w, SeedsOf(r.rankedDimensions));
    AnalysisSound(g, current, baseline, w, r);
    ViewMatches(g, current, baseline, w, v.seeds);
    AffectedIffHit(g, book, v, c);
    if r.best.Some? {
      AffectedIffHit(g, book, v, r.best.value.segment);
    }
    if v.Hit(g, c) {
      BestOutranked(g, w, book, v.seeds, r, c);
    }
  }

  lemma BestOutranked(g: Gates, w: Traffic, book: Book, seeds: Seeds, r: Analysis, c: Segment)
    requires Right(g, w, book) && BestOf(g, book, seeds, r.best) && Affected(g, book, seeds, c)
    ensures r.best.Some? && Size(c) <= Size(r.best.value.segment)
    ensures Size(c) == Size(r.best.value.segment) ==> !Outranks(w.Of(c), w.Of(r.best.value.segment))
  {
    var f, h := book(c).value, r.best.value;
    assert RightAt(g, w.Of(c), c, f) && RightAt(g, w.Of(h.segment), h.segment, h);
    WeakerIs(h, f, w.Of(h.segment), w.Of(c));
    assert !Lesser(h, f);
  }
}
