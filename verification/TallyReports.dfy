/** What the analysis of two windows reports, in numbers of events. */
module TallyReports {
  import opened Options
  import opened Folds
  import opened Rollups
  import opened Segments
  import opened Narrowing
  import opened NarrowingChain
  import opened Observations
  import opened Analyzer
  import opened Tallies

  /** The events of the current window and of the baseline. */
  datatype Traffic = Traffic(now: seq<PaymentEvent>, before: seq<PaymentEvent>) {
    function Of(c: Segment): Tally { TallyOf(now, before, c) }
  }

  /** The finding is about segment c and shows the numbers of its events; it is eligible
      when they meet the gates, and otherwise names the failed ones. */
  ghost predicate RightAt(g: Gates, t: Tally, c: Segment, f: Finding) {
    && f.segment == c && Shows(f, t)
    && (f.Eligible() <==> GatesMet(g, t))
    && (forall r :: r in f.reasons <==> Failed(g, t, r))
  }

  ghost predicate Right(g: Gates, w: Traffic, book: Book) {
    Filed(book) && forall c :: book(c).Some? ==> RightAt(g, w.Of(c), c, book(c).value)
  }

  lemma CandidateRight(g: Gates, c: Segment, a: Counter, b: Counter, t: Tally)
    requires t == Tally(a.errors, a.attempts, b.errors, b.attempts) && t.n > 0 && t.y <= t.m
    ensures RightAt(g, t, c, Candidate(g, c, a, b))
  {
    var f := Candidate(g, c, a, b);
    CandidateMadeOf(g, c, a, b);
    FindingShows(g, f, c, a, b, t);
    FindingEligible(g, f, c, a, b, t);
    forall r ensures r in f.reasons <==> Failed(g, t, r) {
      FindingReasons(g, f, c, a, b, t, r);
    }
  }

  /** The book of two windows is right about the events they were counted from. */
  lemma BookRight(g: Gates, current: Window, baseline: Window, w: Traffic)
    requires Tabulated(current, w.now) && Tabulated(baseline, w.before)
    ensures Right(g, w, BookOf(g, current, baseline))
  {
    var book := BookOf(g, current, baseline);
    BookFiled(g, current, baseline);
    forall c | book(c).Some? ensures RightAt(g, w.Of(c), c, book(c).value) {
      CountersCount(current, w.now, c);
      CountersCount(baseline, w.before, c);
      FewerFail(w.before, c);
      CandidateRight(g, c, CountersOf(current, c)[c], At(CountersOf(baseline, c), c, ZERO), w.Of(c));
    }
  }

  // ---- the gates ------------------------------------------------------------

  /** Ranked singles, reported combinations and the best scope. */
  predicate Given(r: Analysis, f: Finding) {
    f in r.rankedCombinations || r.best == Some(f) || exists d: Dimension :: f in r.rankedDimensions.Of(d)
  }

  /** What is said of an analysis of a right book. */
  ghost predicate Sound(g: Gates, w: Traffic, book: Book, r: Analysis) {
    Right(g, w, book) && Told(g, book, r) && AllContribute(book, r.rankedDimensions)
  }

  lemma AnalysisSound(g: Gates, current: Window, baseline: Window, w: Traffic, r: Analysis)
    requires Shaped(current) && Tabulated(current, w.now) && Tabulated(baseline, w.before)
    requires Explains(g, current, baseline, r)
    ensures Sound(g, w, BookOf(g, current, baseline), r)
  {
    BookRight(g, current, baseline, w);
    RankedAllContribute(g, current, baseline, r.rankedDimensions);
  }

  lemma GivenAffected(g: Gates, w: Traffic, book: Book, r: Analysis, f: Finding)
    requires Sound(g, w, book, r) && Given(r, f)
    ensures book(f.segment) == Some(f) && f.Eligible() && Affected(g, book, SeedsOf(r.rankedDimensions), f.segment)
  {
    if f in r.rankedCombinations {
      ReportedAffected(g, book, SeedsOf(r.rankedDimensions), r.rankedCombinations, f);
    } else if r.best != Some(f) {
      var d: Dimension :| f in r.rankedDimensions.Of(d);
      assert Contributes(book, d, r.rankedDimensions.Of(d));
    }
  }

  lemma GivenRight(g: Gates, w: Traffic, book: Book, r: Analysis, f: Finding)
    requires Sound(g, w, book, r) && Given(r, f)
    ensures Shows(f, w.Of(f.segment)) && GatesMet(g, w.Of(f.segment))
  {
    GivenAffected(g, w, book, r, f);
    assert RightAt(g, w.Of(f.segment), f.segment, f);
  }

  /** What is ranked or reported shows the numbers of its events, and they meet every gate. */
  lemma GivenMeetsGates(g: Gates, current: Window, baseline: Window, w: Traffic, r: Analysis, f: Finding)
    requires Shaped(current) && Tabulated(current, w.now) && Tabulated(baseline, w.before)
    requires Explains(g, current, baseline, r) && Given(r, f)
    ensures Shows(f, w.Of(f.segment)) && GatesMet(g, w.Of(f.segment))
  {
    AnalysisSound(g, current, baseline, w, r);
    GivenRight(g, w, BookOf(g, current, baseline), r, f);
  }

  lemma RejectedRight(g: Gates, w: Traffic, book: Book, r: Analysis, f: Finding)
    requires Sound(g, w, book, r) && f in r.rejected
    ensures if GatesMet(g, w.Of(f.segment)) then f.reasons == [NoMeaningfulNarrowing]
      else forall reason :: reason in f.reasons <==> Failed(g, w.Of(f.segment), reason)
  {
    assert book(f.segment).Some? && f == Verdict(book(f.segment).value);
    assert RightAt(g, w.Of(f.segment), f.segment, book(f.segment).value);
  }

  /** What is rejected names exactly the gates its numbers fail, or that it narrows nothing
      when they fail none. */
  lemma RejectedNamesGates(g: Gates, current: Window, baseline: Window, w: Traffic, r: Analysis, f: Finding)
    requires Shaped(current) && Tabulated(current, w.now) && Tabulated(baseline, w.before)
    requires Explains(g, current, baseline, r) && f in r.rejected
    ensures if GatesMet(g, w.Of(f.segment)) then f.reasons == [NoMeaningfulNarrowing]
      else forall reason :: reason in f.reasons <==> Failed(g, w.Of(f.segment), reason)
  {
    AnalysisSound(g, current, baseline, w, r);
    RejectedRight(g, w, BookOf(g, current, baseline), r, f);
  }

  // ---- narrowing ------------------------------------------------------------

  /** A number of each segment. */
  type Measure = Segment -> real

  function ExcessIn(w: Traffic): Measure { c => ExcessOf(w.Of(c)) }

  function FailureRate(t: Tally): real { if t.n == 0 then 0.0 else t.x as real / t.n as real }

  function RateIn(w: Traffic): Measure { c => FailureRate(w.Of(c)) }

  ghost predicate MeasuredAt(f: Finding, excess: real, rate: real) { f.excess == excess && f.rate == rate }

  ghost predicate Measured(book: Book, excess: Measure, rate: Measure) {
    Filed(book) && forall c :: book(c).Some? ==> MeasuredAt(book(c).value, excess(c), rate(c))
  }

  lemma RightMeasured(g: Gates, w: Traffic, book: Book)
    requires Right(g, w, book)
    ensures Measured(book, ExcessIn(w), RateIn(w))
  {
    forall c | book(c).Some? ensures MeasuredAt(book(c).value, ExcessIn(w)(c), RateIn(w)(c)) {
      assert RightAt(g, w.Of(c), c, book(c).value);
    }
  }

  /** At least this share of the excess, and this factor on the rate, of p. */
  predicate NarrowsBy(excess: Measure, rate: Measure, c: Segment, p: Segment, share: real, factor: real) {
    && excess(c) >= excess(p) * share
    && rate(c) >= rate(p) * factor
  }

  /** A pair narrows its single with more excess, which is the one without d, and keeps the
      share of the excess of both. */
  predicate PairNarrowed(g: Gates, excess: Measure, rate: Measure, c: Segment, d: Dimension) {
    && c.Of(d).Some? && NarrowsBy(excess, rate, c, c.With(d, None), g.retention, 1.0 + g.improvement)
    && forall e: Dimension :: c.Of(e).Some? ==> ShareKept(g, excess, c, d, e)
  }

  predicate ShareKept(g: Gates, excess: Measure, c: Segment, d: Dimension, e: Dimension) {
    && excess(c) >= excess(c.With(e, None)) * g.retention
    && excess(c.With(e, None)) <= excess(c.With(d, None))
  }

  lemma NarrowsMeasured(book: Book, excess: Measure, rate: Measure, c: Segment, p: Segment, share: real, factor: real)
    requires Measured(book, excess, rate) && book(c).Some? && book(p).Some?
    ensures NarrowsBy(excess, rate, c, p, share, factor) <==>
      && book(c).value.excess >= book(p).value.excess * share
      && book(c).value.rate >= book(p).value.rate * factor
    ensures excess(c) >= excess(p) * share <==> book(c).value.excess >= book(p).value.excess * share
  {
    assert MeasuredAt(book(c).value, excess(c), rate(c));
    assert MeasuredAt(book(p).value, excess(p), rate(p));
  }

  lemma WeakerMeasured(book: Book, excess: Measure, rate: Measure, c: Segment, p: Segment)
    requires Measured(book, excess, rate) && book(c).Some? && book(p).Some?
    ensures excess(c) <= excess(p) <==> book(c).value.excess <= book(p).value.excess
  {
    assert MeasuredAt(book(c).value, excess(c), rate(c));
    assert MeasuredAt(book(p).value, excess(p), rate(p));
  }

  /** The part of c without d has a finding, which f narrows; no other part has more excess. */
  ghost predicate PairFound(g: Gates, book: Book, c: Segment, d: Dimension) {
    && c.Of(d).Some? && book(c).Some? && book(c.With(d, None)).Some?
    && Narrows(g, book(c).value, book(c.With(d, None)).value)
    && forall e: Dimension :: c.Of(e).Some? ==> PartFound(g, book, c, d, e)
  }

  ghost predicate PartFound(g: Gates, book: Book, c: Segment, d: Dimension, e: Dimension)
    requires book(c).Some? && book(c.With(d, None)).Some?
  {
    && book(c.With(e, None)).Some? && Retains(g, book(c).value, book(c.With(e, None)).value)
    && book(c.With(e, None)).value.excess <= book(c.With(d, None)).value.excess
  }

  lemma PairFoundBy(g: Gates, book: Book, seeds: Seeds, c: Segment) returns (d: Dimension)
    requires Filed(book) && SeedsPassed(book, seeds) && Size(c) == 2 && Affected(g, book, seeds, c)
    ensures PairFound(g, book, c, d)
  {
    PairNarrows(g, book, seeds, c);
    d := ParentFrom(g, book, seeds, c, Strongest(Parents(g, book, seeds, c)));
    forall e: Dimension | c.Of(e).Some? ensures PartFound(g, book, c, d, e) {
      PairHasParents(g, book, seeds, c, e);
    }
  }

  lemma PairFoundMeasured(g: Gates, book: Book, excess: Measure, rate: Measure, c: Segment, d: Dimension)
    requires Measured(book, excess, rate) && PairFound(g, book, c, d)
    ensures PairNarrowed(g, excess, rate, c, d)
  {
    NarrowsMeasured(book, excess, rate, c, c.With(d, None), g.retention, 1.0 + g.improvement);
    forall e: Dimension | c.Of(e).Some? ensures ShareKept(g, excess, c, d, e) {
      assert PartFound(g, book, c, d, e);
      NarrowsMeasured(book, excess, rate, c, c.With(e, None), g.retention, 1.0);
      WeakerMeasured(book, excess, rate, c.With(e, None), c.With(d, None));
    }
  }

  /** What narrowing means for a reported pair, in numbers of events. */
  lemma PairNarrowsInCounts(g: Gates, current: Window, baseline: Window, w: Traffic, r: Analysis,
                            f: Finding) returns (d: Dimension)
    requires Shaped(current) && Tabulated(current, w.now) && Tabulated(baseline, w.before)
    requires Explains(g, current, baseline, r) && f in r.rankedCombinations && Size(f.segment) == 2
    ensures PairNarrowed(g, ExcessIn(w), RateIn(w), f.segment, d)
  {
    var book := BookOf(g, current, baseline);
    AnalysisSound(g, current, baseline, w, r);
    SeedsOfPassed(book, r.rankedDimensions);
    GivenAffected(g, w, book, r, f);
    RightMeasured(g, w, book);
    d := PairFoundBy(g, book, SeedsOf(r.rankedDimensions), f.segment);
    PairFoundMeasured(g, book, ExcessIn(w), RateIn(w), f.segment, d);
  }

  /** The part of f's segment without dimension d is reported too. */
  predicate PairReported(r: Analysis, f: Finding, d: Dimension) {
    f.segment.Of(d).Some? && exists p :: p in r.rankedCombinations && p.segment == f.segment.With(d, None)
  }

  /** A triple narrows its single in d, a seed, twice over. */
  predicate TripleNarrowed(g: Gates, seeds: Seeds, excess: Measure, rate: Measure, c: Segment, d: Dimension) {
    && c.Of(d).Some? && c.Of(d).value in seeds.Of(d)
    && NarrowsBy(excess, rate, c, WHOLE.With(d, c.Of(d)),
                 g.retention * g.retention, (1.0 + g.improvement) * (1.0 + g.improvement))
  }

  lemma TripleFound(g: Gates, book: Book, seeds: Seeds, c: Segment, e: Dimension) returns (d: Dimension)
    requires Filed(book) && SeedsPassed(book, seeds) && Size(c) == 3 && Affected(g, book, seeds, c)
    requires c.Of(e).Some? && Affected(g, book, seeds, c.With(e, None))
    ensures c.Of(d).Some? && c.Of(d).value in seeds.Of(d) && book(WHOLE.With(d, c.Of(d))).Some?
    ensures NarrowsTwice(g, book(c).value, book(WHOLE.With(d, c.Of(d))).value)
  {
    assert book(c.With(e, None)).value in Parent(g, book, seeds, c, e);
    assert book(c.With(e, None)).value in Parents(g, book, seeds, c);
    d := TripleNarrowsTwice(g, book, seeds, c);
  }

  lemma TripleFoundMeasured(g: Gates, book: Book, seeds: Seeds, excess: Measure, rate: Measure, c: Segment,
                            d: Dimension)
    requires Measured(book, excess, rate) && book(c).Some?
    requires c.Of(d).Some? && c.Of(d).value in seeds.Of(d) && book(WHOLE.With(d, c.Of(d))).Some?
    requires NarrowsTwice(g, book(c).value, book(WHOLE.With(d, c.Of(d))).value)
    ensures TripleNarrowed(g, seeds, excess, rate, c, d)
  {
    NarrowsMeasured(book, excess, rate, c, WHOLE.With(d, c.Of(d)),
                    g.retention * g.retention, (1.0 + g.improvement) * (1.0 + g.improvement));
  }

  /** And for a reported triple one of whose pairs is reported. */
  lemma TripleNarrowsTwiceInCounts(g: Gates, current: Window, baseline: Window, w: Traffic, r: Analysis,
                                   f: Finding, e: Dimension) returns (d: Dimension)
    requires Shaped(current) && Tabulated(current, w.now) && Tabulated(baseline, w.before)
    requires Explains(g, current, baseline, r) && f in r.rankedCombinations && Size(f.segment) == 3
    requires PairReported(r, f, e)
    ensures TripleNarrowed(g, SeedsOf(r.rankedDimensions), ExcessIn(w), RateIn(w), f.segment, d)
  {
    var book := BookOf(g, current, baseline);
    AnalysisSound(g, current, baseline, w, r);
    SeedsOfPassed(book, r.rankedDimensions);
    GivenAffected(g, w, book, r, f);
    var p :| p in r.rankedCombinations && p.segment == f.segment.With(e, None);
    GivenAffected(g, w, book, r, p);
    RightMeasured(g, w, book);
    d := TripleFound(g, book, SeedsOf(r.rankedDimensions), f.segment, e);
    TripleFoundMeasured(g, book, SeedsOf(r.rankedDimensions), ExcessIn(w), RateIn(w), f.segment, d);
  }

  // ---- order ----------------------------------------------------------------

  /** More excess, or as much and a greater increase of the rate, or as much of both and
      more attempts. */
  predicate Outranks(t: Tally, u: Tally) {
    && t.n > 0 && u.n > 0
    && (|| ExcessOf(t) > ExcessOf(u)
        || (ExcessOf(t) == ExcessOf(u) && IncreaseOf(t) > IncreaseOf(u))
        || (ExcessOf(t) == ExcessOf(u) && IncreaseOf(t) == IncreaseOf(u) && t.n > u.n))
  }

  lemma WeakerIs(f: Finding, h: Finding, t: Tally, u: Tally)
    requires Shows(f, t) && Shows(h, u)
    ensures Weaker(f, h) <==> Outranks(u, t)
  {
  }

  predicate Before(fs: seq<Finding>, f: Finding, h: Finding) {
    exists i, j :: 0 <= i < j < |fs| && fs[i] == f && fs[j] == h
  }

  /** Nothing reported outranks what is reported before it, and nothing given has more
      dimensions than the best scope, or as many and outranks it. */
  lemma GivenInOrder(g: Gates, current: Window, baseline: Window, w: Traffic, r: Analysis, f: Finding, h: Finding)
    requires Shaped(current) && Tabulated(current, w.now) && Tabulated(baseline, w.before)
    requires Explains(g, current, baseline, r) && Given(r, f) && Given(r, h)
    ensures Before(r.rankedCombinations, f, h) ==> !Outranks(w.Of(h.segment), w.Of(f.segment))
    ensures r.best == Some(f) ==>
      && Size(h.segment) <= Size(f.segment)
      && (Size(h.segment) == Size(f.segment) ==> !Outranks(w.Of(h.segment), w.Of(f.segment)))
  {
    AnalysisSound(g, current, baseline, w, r);
    OrderRight(g, w, BookOf(g, current, baseline), r, f, h);
  }

  lemma OrderRight(g: Gates, w: Traffic, book: Book, r: Analysis, f: Finding, h: Finding)
    requires Sound(g, w, book, r) && Given(r, f) && Given(r, h)
    ensures Before(r.rankedCombinations, f, h) ==> !Outranks(w.Of(h.segment), w.Of(f.segment))
    ensures r.best == Some(f) ==>
      && Size(h.segment) <= Size(f.segment)
      && (Size(h.segment) == Size(f.segment) ==> !Outranks(w.Of(h.segment), w.Of(f.segment)))
  {
    GivenRight(g, w, book, r, f);
    GivenRight(g, w, book, r, h);
    WeakerIs(f, h, w.Of(f.segment), w.Of(h.segment));
    GivenAffected(g, w, book, r, h);
    assert r.best == Some(f) ==> !Lesser(f, h);
  }
}
