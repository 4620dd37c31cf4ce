/** The analysis of a pair of windows, as the loops that compute it. */
module Analyzer {
  import opened Lists
  import opened Options
  import opened Rollups
  import opened Segments
  import opened Narrowing
  import opened NarrowingChain
  import opened Observations
  import opened CombinationSearch

  datatype Completeness = Complete | Incomplete | InsufficientData

  datatype Analysis = Analysis(
    completeness: Completeness,
    rankedDimensions: PerDimension<seq<Finding>>,
    rankedCombinations: seq<Finding>,
    best: Option<Finding>,
    rejected: seq<Finding>)

  function SeedsOf(ranked: PerDimension<seq<Finding>>): Seeds {
    PerDimension(ValuesOf(ranked.region, Region), ValuesOf(ranked.paymentMethod, Method),
                 ValuesOf(ranked.version, Version))
  }

  function ValuesOf(fs: seq<Finding>, d: Dimension): set<string> {
    set f | f in fs && f.segment.Of(d).Some? :: f.segment.Of(d).value
  }

  /** More dimensions first, then as in the ranking. */
  predicate Lesser(a: Finding, b: Finding) {
    Size(a.segment) < Size(b.segment) || (Size(a.segment) == Size(b.segment) && Weaker(a, b))
  }

  /** The first greatest finding. */
  function Best(fs: seq<Finding>): (r: Option<Finding>)
    ensures r.None? <==> fs == []
    ensures r.Some? ==> r.value in fs && forall f :: f in fs ==> !Lesser(r.value, f)
  {
    if fs == [] then None
    else
      assert fs == Front(fs) + [Last(fs)];
      var r := Best(Front(fs));
      if r.None? || Lesser(r.value, Last(fs)) then Some(Last(fs)) else r
  }

  // ---- one dimension --------------------------------------------------------

  /** The findings of one dimension in table order. */
  function Findings(g: Gates, current: seq<Row>, baseline: seq<Row>): seq<Finding> {
    if current == [] then []
    else Findings(g, Front(current), baseline)
         + [Candidate(g, Last(current).segment, Last(current).counter, Find(baseline, Last(current).segment))]
  }

  function Passing(fs: seq<Finding>): seq<Finding> {
    if fs == [] then [] else Passing(Front(fs)) + (if Last(fs).Eligible() then [Last(fs)] else [])
  }

  function Failing(fs: seq<Finding>): seq<Finding> {
    if fs == [] then [] else Failing(Front(fs)) + (if Last(fs).Eligible() then [] else [Last(fs)])
  }

  function Enter(lookup: map<Segment, Finding>, fs: seq<Finding>): map<Segment, Finding> {
    if fs == [] then lookup else Enter(lookup, Front(fs))[Last(fs).segment := Last(fs)]
  }

  /** The ranked singles of one dimension. */
  function Leading(g: Gates, current: Window, baseline: Window, d: Dimension): seq<Finding> {
    Top(g.seedTopN, Rank(Passing(Findings(g, current.dimensions.Of(d), baseline.dimensions.Of(d)))))
  }

  /** The findings fs entered into the lookup, and sifted into passing and failing. */
  predicate Sifted(fs: seq<Finding>, was: map<Segment, Finding>, known: seq<Finding>,
                   lookup: map<Segment, Finding>, passing: seq<Finding>, failing: seq<Finding>) {
    lookup == Enter(was, fs) && passing == Passing(fs) && failing == known + Failing(fs)
  }

  lemma SiftStep(fs: seq<Finding>, f: Finding, was: map<Segment, Finding>, known: seq<Finding>,
                 lookup: map<Segment, Finding>, passing: seq<Finding>, failing: seq<Finding>)
    requires Sifted(fs, was, known, lookup, passing, failing)
    ensures Sifted(fs + [f], was, known, lookup[f.segment := f],
                   if f.Eligible() then passing + [f] else passing, if f.Eligible() then failing else failing + [f])
  {
    assert Front(fs + [f]) == fs;
  }

  lemma FindingsSnoc(g: Gates, current: seq<Row>, baseline: seq<Row>, i: nat)
    requires i < |current|
    ensures Findings(g, current[..i+1], baseline) == Findings(g, current[..i], baseline)
      + [Candidate(g, current[i].segment, current[i].counter, Find(baseline, current[i].segment))]
  {
    assert Front(current[..i+1]) == current[..i];
  }

  /** The findings of one dimension: entered, sorted into passing and rejected, and the
      strongest kept. */
  method RankDimension(g: Gates, current: seq<Row>, baseline: seq<Row>, individuals: map<Segment, Finding>,
                       rejected: seq<Finding>)
    returns (ranked: seq<Finding>, individuals': map<Segment, Finding>, rejected': seq<Finding>)
    ensures var found := Findings(g, current, baseline);
      && ranked == Top(g.seedTopN, Rank(Passing(found)))
      && individuals' == Enter(individuals, found)
      && rejected' == rejected + Failing(found)
  {
    var candidates: seq<Finding> := [];
    individuals', rejected' := individuals, rejected;
    ghost var found: seq<Finding> := [];
    for i := 0 to |current|
      invariant found == Findings(g, current[..i], baseline)
      invariant Sifted(found, individuals, rejected, individuals', candidates, rejected')
    {
      var finding := Candidate(g, current[i].segment, current[i].counter, Find(baseline, current[i].segment));
      FindingsSnoc(g, current, baseline, i);
      SiftStep(found, finding, individuals, rejected, individuals', candidates, rejected');
      found := found + [finding];
      individuals' := individuals'[finding.segment := finding];
      if finding.Eligible() {
        candidates := candidates + [finding];
      } else {
        rejected' := rejected' + [finding];
      }
    }
    assert current[..|current|] == current;
    ranked := Top(g.seedTopN, Rank(candidates));
  }

  // ---- the whole analysis ---------------------------------------------------

  /** Exactly the affected combinations, each once, strongest first. */
  ghost predicate Reported(g: Gates, book: Book, seeds: Seeds, fs: seq<Finding>) {
    && Ranked(fs) && FromBook(book, fs) && |fs| == |Keys(fs)|
    && (forall c :: c in Keys(fs) <==> Size(c) >= 2 && Affected(g, book, seeds, c))
  }

  /** Exactly the observed segments that are not affected, seeded ones only for combinations. */
  ghost predicate Declined(g: Gates, book: Book, seeds: Seeds, fs: seq<Finding>) {
    && Rejections(book, fs)
    && (forall c :: c in Keys(fs) <==>
          book(c).Some? && !Affected(g, book, seeds, c) && (Size(c) >= 2 ==> Seeded(seeds, c)))
  }

  function CompletenessOf(current: Window, baseline: Window, best: Option<Finding>): Completeness {
    if !Combinable(current, baseline) then Incomplete else if best.None? then InsufficientData else Complete
  }

  /** What the analysis reports in terms of the book, free of the order of its loops. */
  ghost predicate Told(g: Gates, book: Book, r: Analysis) {
    var seeds := SeedsOf(r.rankedDimensions);
    && Reported(g, book, seeds, r.rankedCombinations)
    && Declined(g, book, seeds, r.rejected)
    && BestOf(g, book, seeds, r.best)
  }

  ghost predicate Explains(g: Gates, current: Window, baseline: Window, r: Analysis) {
    && RankedOver(g, current, baseline, ALL, r.rankedDimensions)
    && Told(g, BookOf(g, current, baseline), r)
    && r.completeness == CompletenessOf(current, baseline, r.best)
  }

  /** The best finding is affected and no affected segment is greater, those singles
      included that the ranking cut off; there is none only when nothing is affected. */
  ghost predicate BestOf(g: Gates, book: Book, seeds: Seeds, best: Option<Finding>) {
    && (best.Some? ==> Affected(g, book, seeds, best.value.segment) && book(best.value.segment) == best)
    && (forall c :: Affected(g, book, seeds, c) ==> best.Some? && !Lesser(best.value, book(c).value))
  }

  // ---- singles --------------------------------------------------------------

  lemma {:induction false} FindingsAt(g: Gates, current: seq<Row>, baseline: seq<Row>)
    ensures |Findings(g, current, baseline)| == |current|
    ensures forall i :: 0 <= i < |current| ==>
      Findings(g, current, baseline)[i] ==
        Candidate(g, current[i].segment, current[i].counter, Find(baseline, current[i].segment))
  {
    if current != [] {
      FindingsAt(g, Front(current), baseline);
    }
  }

  lemma {:induction false} PassingAre(fs: seq<Finding>)
    ensures forall f :: f in Passing(fs) <==> f in fs && f.Eligible()
    ensures forall f :: f in Failing(fs) <==> f in fs && !f.Eligible()
  {
    if fs != [] {
      PassingAre(Front(fs));
      assert fs == Front(fs) + [Last(fs)];
    }
  }

  /** The book's singles of dimension d. */
  ghost predicate SinglesOf(book: Book, d: Dimension, found: seq<Finding>) {
    && FromBook(book, found)
    && (forall f :: f in found ==> OnlyDimension(f.segment, d))
    && (forall c :: OnlyDimension(c, d) && book(c).Some? ==> book(c).value in found)
  }

  /** The findings of dimension d are the book's singles of d. */
  lemma FindingsFiled(g: Gates, current: Window, baseline: Window, d: Dimension)
    requires Shaped(current)
    ensures SinglesOf(BookOf(g, current, baseline), d, Findings(g, current.dimensions.Of(d), baseline.dimensions.Of(d)))
  {
    var found := Findings(g, current.dimensions.Of(d), baseline.dimensions.Of(d));
    var book := BookOf(g, current, baseline);
    FindingsAt(g, current.dimensions.Of(d), baseline.dimensions.Of(d));
    forall i | 0 <= i < |found| ensures OnlyDimension(found[i].segment, d) && book(found[i].segment) == Some(found[i]) {
      SingleFiled(g, current, baseline, d, i);
    }
    forall c | OnlyDimension(c, d) && book(c).Some? ensures book(c).value in found {
      SingleFound(g, current, baseline, d, c);
    }
  }

  lemma SingleFound(g: Gates, current: Window, baseline: Window, d: Dimension, c: Segment)
    requires Shaped(current) && OnlyDimension(c, d) && BookOf(g, current, baseline)(c).Some?
    ensures BookOf(g, current, baseline)(c).value in Findings(g, current.dimensions.Of(d), baseline.dimensions.Of(d))
  {
    var rows, found := current.dimensions.Of(d), Findings(g, current.dimensions.Of(d), baseline.dimensions.Of(d));
    FindingsAt(g, rows, baseline.dimensions.Of(d));
    AsMapKeys(rows, c);
    var i :| 0 <= i < |rows| && rows[i].segment == c;
    SingleFiled(g, current, baseline, d, i);
    assert found[i] in found;
  }

  lemma SingleFiled(g: Gates, current: Window, baseline: Window, d: Dimension, i: nat)
    requires Shaped(current) && i < |current.dimensions.Of(d)|
    ensures var rows, base := current.dimensions.Of(d), baseline.dimensions.Of(d);
      && OnlyDimension(rows[i].segment, d)
      && BookOf(g, current, baseline)(rows[i].segment)
           == Some(Candidate(g, rows[i].segment, rows[i].counter, Find(base, rows[i].segment)))
  {
    var rows, base := current.dimensions.Of(d), baseline.dimensions.Of(d);
    assert OnlyDimension(rows[i].segment, d);
    assert TheDimension(rows[i].segment) == d;
    RowCounters(rows, base, i);
    EntryIs(g, current, baseline, rows[i].segment, rows[i].counter, Find(base, rows[i].segment));
  }

  /** What one dimension contributes: its ranked findings are affected singles, and no
      affected single of the dimension is stronger than all of them. */
  ghost predicate Contributes(book: Book, d: Dimension, ranked: seq<Finding>) {
    && FromBook(book, ranked)
    && (forall f :: f in ranked ==> OnlyDimension(f.segment, d) && f.Eligible())
    && (forall c :: OnlyDimension(c, d) && book(c).Some? && book(c).value.Eligible() ==> Beaten(ranked, book(c).value))
  }

  predicate Beaten(ranked: seq<Finding>, f: Finding) {
    ranked != [] && (f in ranked || !Weaker(ranked[0], f))
  }

  lemma RankedContributes(g: Gates, book: Book, d: Dimension, found: seq<Finding>)
    requires SinglesOf(book, d, found)
    ensures Contributes(book, d, Top(g.seedTopN, Rank(Passing(found))))
  {
    var ranked := Top(g.seedTopN, Rank(Passing(found)));
    PassingAre(found);
    forall f | f in ranked ensures f in found && f.Eligible() {
      TopKeepsOnly(g.seedTopN, Passing(found), f);
    }
    forall c | OnlyDimension(c, d) && book(c).Some? && book(c).value.Eligible() ensures Beaten(ranked, book(c).value) {
      TopKeepsStrongest(g.seedTopN, Passing(found), book(c).value);
    }
  }

  lemma NotLesser(best: Finding, top: Finding, f: Finding)
    requires Size(best.segment) >= 1 && Size(top.segment) == 1 && Size(f.segment) == 1
    requires !Lesser(best, top) && !Weaker(top, f)
    ensures !Lesser(best, f)
  {
  }

  ghost predicate AllContribute(book: Book, ranked: PerDimension<seq<Finding>>) {
    forall d: Dimension :: Contributes(book, d, ranked.Of(d))
  }

  function Pool(ranked: PerDimension<seq<Finding>>, accepted: seq<Finding>): seq<Finding> {
    ranked.region + ranked.paymentMethod + ranked.version + accepted
  }

  /** Cut-off singles cannot have been the best: a kept one is as strong. */
  lemma BestIsBest(g: Gates, book: Book, seeds: Seeds, ranked: PerDimension<seq<Finding>>, accepted: seq<Finding>)
    requires Filed(book) && AllContribute(book, ranked) && FromBook(book, accepted)
    requires forall c :: c in Keys(accepted) <==> Size(c) >= 2 && Affected(g, book, seeds, c)
    ensures BestOf(g, book, seeds, Best(Pool(ranked, accepted)))
  {
    var pool := Pool(ranked, accepted);
    forall f | f in pool ensures Affected(g, book, seeds, f.segment) && book(f.segment) == Some(f) {
      PoolAffected(g, book, seeds, ranked, accepted, f);
    }
    forall c | Affected(g, book, seeds, c) ensures Best(pool).Some? && !Lesser(Best(pool).value, book(c).value) {
      PoolCovers(g, book, seeds, ranked, accepted, c);
    }
  }

  lemma PoolAffected(g: Gates, book: Book, seeds: Seeds, ranked: PerDimension<seq<Finding>>, accepted: seq<Finding>,
                     f: Finding)
    requires AllContribute(book, ranked) && FromBook(book, accepted)
    requires forall c :: c in Keys(accepted) <==> Size(c) >= 2 && Affected(g, book, seeds, c)
    requires f in Pool(ranked, accepted)
    ensures Affected(g, book, seeds, f.segment) && book(f.segment) == Some(f)
  {
    if f in accepted {
      assert f.segment in Keys(accepted);
    } else {
      var d := if f in ranked.region then Region else if f in ranked.paymentMethod then Method else Version;
      assert Contributes(book, d, ranked.Of(d)) && f in ranked.Of(d);
    }
  }

  lemma PoolCovers(g: Gates, book: Book, seeds: Seeds, ranked: PerDimension<seq<Finding>>, accepted: seq<Finding>,
                   c: Segment)
    requires Filed(book) && AllContribute(book, ranked) && FromBook(book, accepted)
    requires forall c :: c in Keys(accepted) <==> Size(c) >= 2 && Affected(g, book, seeds, c)
    requires forall f :: f in Pool(ranked, accepted) ==>
      Affected(g, book, seeds, f.segment) && book(f.segment) == Some(f)
    requires Affected(g, book, seeds, c)
    ensures Best(Pool(ranked, accepted)).Some? && !Lesser(Best(Pool(ranked, accepted)).value, book(c).value)
  {
    var pool, f := Pool(ranked, accepted), book(c).value;
    if Size(c) >= 2 {
      assert c in Keys(accepted);
      var h :| h in accepted && h.segment == c;
      assert f in pool;
    } else {
      var d := TheDimension(c);
      assert Size(c) == 1 by { assert c != WHOLE; }
      var kept := ranked.Of(d);
      assert Contributes(book, d, kept) && Beaten(kept, f);
      assert kept[0] in pool && OnlyDimension(kept[0].segment, d);
      if f !in kept {
        NotLesser(Best(pool).value, kept[0], f);
      } else {
        assert f in pool;
      }
    }
  }

  lemma SeedsOfPassed(book: Book, ranked: PerDimension<seq<Finding>>)
    requires AllContribute(book, ranked)
    ensures SeedsPassed(book, SeedsOf(ranked))
  {
    forall d: Dimension, v | v in SeedsOf(ranked).Of(d)
      ensures book(WHOLE.With(d, Some(v))).Some? && book(WHOLE.With(d, Some(v))).value.Eligible()
    {
      assert Contributes(book, d, ranked.Of(d));
      var f :| f in ranked.Of(d) && f.segment.Of(d) == Some(v);
      assert f.segment == WHOLE.With(d, Some(v));
    }
  }

  /** The singles of the dimensions ds, entered or rejected. */
  ghost predicate SinglesKnown(book: Book, ds: set<Dimension>, individuals: map<Segment, Finding>,
                               rejected: seq<Finding>) {
    && (forall c :: c in individuals <==> book(c).Some? && Size(c) == 1 && TheDimension(c) in ds)
    && (forall c :: c in individuals ==> book(c) == Some(individuals[c]))
    && Rejections(book, rejected)
    && (forall c :: c in Keys(rejected) <==>
          book(c).Some? && Size(c) == 1 && !book(c).value.Eligible() && TheDimension(c) in ds)
  }

  lemma {:induction false} EnterKeys(book: Book, lookup: map<Segment, Finding>, fs: seq<Finding>)
    requires FromBook(book, fs) && forall c :: c in lookup ==> book(c) == Some(lookup[c])
    ensures forall c :: c in Enter(lookup, fs) <==> c in lookup || c in Keys(fs)
    ensures forall c :: c in Enter(lookup, fs) ==> book(c) == Some(Enter(lookup, fs)[c])
  {
    if fs != [] {
      EnterKeys(book, lookup, Front(fs));
      KeysSnoc(Front(fs), Last(fs));
      assert fs == Front(fs) + [Last(fs)];
    }
  }

  lemma SinglesStep(book: Book, ds: set<Dimension>, d: Dimension, found: seq<Finding>,
                    individuals: map<Segment, Finding>, rejected: seq<Finding>)
    requires Filed(book) && d !in ds && SinglesOf(book, d, found)
    requires SinglesKnown(book, ds, individuals, rejected)
    ensures SinglesKnown(book, ds + {d}, Enter(individuals, found), rejected + Failing(found))
  {
    PassingAre(found);
    EnterKeys(book, individuals, found);
    KeysConcat(rejected, Failing(found));
    forall c ensures c in Keys(found) <==> book(c).Some? && Size(c) == 1 && TheDimension(c) == d {
      FoundIff(book, found, d, c);
    }
    forall c ensures c in Keys(Failing(found)) <==> c in Keys(found) && !book(c).value.Eligible() {
      FailingIff(book, found, c);
    }
  }

  lemma FoundIff(book: Book, found: seq<Finding>, d: Dimension, c: Segment)
    requires Filed(book) && SinglesOf(book, d, found)
    ensures c in Keys(found) <==> book(c).Some? && Size(c) == 1 && TheDimension(c) == d
  {
    if c in Keys(found) {
      var f :| f in found && f.segment == c;
    }
    if book(c).Some? && Size(c) == 1 && TheDimension(c) == d {
      assert OnlyDimension(c, d) && book(c).value in found;
      assert book(c).value.segment in Keys(found);
    }
  }

  lemma FailingIff(book: Book, found: seq<Finding>, c: Segment)
    requires FromBook(book, found)
    ensures c in Keys(found) ==> book(c).Some?
    ensures c in Keys(Failing(found)) <==> c in Keys(found) && !book(c).value.Eligible()
  {
    PassingAre(found);
    if c in Keys(found) {
      var f :| f in found && f.segment == c;
      assert !f.Eligible() ==> f in Failing(found) && f.segment in Keys(Failing(found));
    }
  }

  /** The dimensions ds have been ranked. */
  ghost predicate RankedOver(g: Gates, current: Window, baseline: Window, ds: set<Dimension>,
                             ranked: PerDimension<seq<Finding>>) {
    forall d: Dimension :: d in ds ==> ranked.Of(d) == Leading(g, current, baseline, d)
  }

  function Among(ds: seq<Dimension>): set<Dimension> { set d | d in ds }

  const ORDER: seq<Dimension> := [Region, Method, Version]
  const ALL: set<Dimension> := {Region, Method, Version}

  lemma OrderStep(k: nat)
    requires k < |ORDER|
    ensures ORDER[k] !in ORDER[..k]
    ensures Among(ORDER[..k+1]) == Among(ORDER[..k]) + {ORDER[k]}
    ensures k == |ORDER| - 1 ==> Among(ORDER[..k+1]) == ALL
  {
    assert ORDER[..k+1] == ORDER[..k] + [ORDER[k]];
    assert ORDER[0] == Region && ORDER[1] == Method && ORDER[2] == Version;
    if k == |ORDER| - 1 {
      assert ORDER[..k+1] == ORDER;
      forall d: Dimension ensures d in ORDER {
        match d case Region => case Method => case Version =>
      }
    }
  }

  lemma RankedStep(g: Gates, current: Window, baseline: Window, ds: set<Dimension>, d: Dimension,
                   ranked: PerDimension<seq<Finding>>)
    requires RankedOver(g, current, baseline, ds, ranked) && d !in ds
    ensures RankedOver(g, current, baseline, ds + {d}, ranked.With(d, Leading(g, current, baseline, d)))
  {
    var leading := Leading(g, current, baseline, d);
    forall e: Dimension | e in ds + {d} ensures ranked.With(d, leading).Of(e) == Leading(g, current, baseline, e) {
      WithOf(ranked, d, leading, e);
    }
  }

  lemma WithOf<T>(p: PerDimension<T>, d: Dimension, x: T, e: Dimension)
    ensures p.With(d, x).Of(e) == if e == d then x else p.Of(e)
  {
  }

  /** The ranked singles of every dimension, the lookup of all singles, and the rejected. */
  method RankDimensions(g: Gates, current: Window, baseline: Window)
    returns (ranked: PerDimension<seq<Finding>>, individuals: map<Segment, Finding>, rejected: seq<Finding>)
    requires Shaped(current)
    ensures RankedOver(g, current, baseline, ALL, ranked)
    ensures SinglesKnown(BookOf(g, current, baseline), ALL, individuals, rejected)
  {
    ranked, individuals, rejected := PerDimension([], [], []), map[], [];
    for k := 0 to |ORDER|
      invariant RankedOver(g, current, baseline, Among(ORDER[..k]), ranked)
      invariant SinglesKnown(BookOf(g, current, baseline), Among(ORDER[..k]), individuals, rejected)
      invariant k == |ORDER| ==> Among(ORDER[..k]) == ALL
    {
      var d := ORDER[k];
      OrderStep(k);
      FindingsFiled(g, current, baseline, d);
      SinglesStep(BookOf(g, current, baseline), Among(ORDER[..k]), d,
                  Findings(g, current.dimensions.Of(d), baseline.dimensions.Of(d)), individuals, rejected);
      RankedStep(g, current, baseline, Among(ORDER[..k]), d, ranked);
      var top;
      top, individuals, rejected :=
        RankDimension(g, current.dimensions.Of(d), baseline.dimensions.Of(d), individuals, rejected);
      ranked := ranked.With(d, top);
    }
  }

  /** The combinations, all decided. */
  ghost predicate Settled(g: Gates, book: Book, seeds: Seeds, accepted: seq<Finding>, rejected: seq<Finding>) {
    && FromBook(book, accepted) && |accepted| == |Keys(accepted)|
    && (forall c :: c in Keys(accepted) <==> Size(c) >= 2 && Affected(g, book, seeds, c))
    && Rejections(book, rejected)
    && (forall c :: c in Keys(rejected) <==>
          book(c).Some? && Size(c) >= 2 && Seeded(seeds, c) && !Affected(g, book, seeds, c))
  }

  lemma DecidedIsSettled(g: Gates, book: Book, seeds: Seeds, done: set<Segment>, lookup: map<Segment, Finding>,
                         accepted: seq<Finding>, rejected: seq<Finding>)
    requires DoneUpTo(book, |PAIRS_AND_TRIPLES|, done)
    requires Decided(book, AffectedBy(g, book, seeds), SeededBy(seeds), done, lookup, accepted, rejected)
    ensures Settled(g, book, seeds, accepted, rejected)
  {
    assert forall c :: c in done <==> book(c).Some? && Size(c) >= 2;
  }

  lemma SinglesLookup(book: Book, affected: Segment -> bool, individuals: map<Segment, Finding>, rejected: seq<Finding>)
    requires SinglesKnown(book, ALL, individuals, rejected)
    ensures LookupIs(book, affected, {}, individuals)
  {
    forall c ensures TheDimension(c) in ALL {
    }
  }

  method SettleCombinations(g: Gates, current: Window, baseline: Window, seeds: Seeds, individuals: map<Segment,
                            Finding>,
                            ghost known: seq<Finding>)
    returns (accepted: seq<Finding>, rejected: seq<Finding>)
    requires Shaped(current) && Shaped(baseline) && SinglesKnown(BookOf(g, current, baseline), ALL, individuals, known)
    ensures Settled(g, BookOf(g, current, baseline), seeds, accepted, rejected)
  {
    ghost var book := BookOf(g, current, baseline);
    if current.combinations == [] || baseline.combinations == [] {
      accepted, rejected := [], [];
      assert forall c :: Size(c) >= 2 ==> book(c).None?;
    } else {
      SinglesLookup(book, AffectedBy(g, book, seeds), individuals, known);
      accepted, rejected := CombinationCandidates(g, current, baseline, seeds, individuals);
      ghost var done, lookup :| DoneUpTo(book, |PAIRS_AND_TRIPLES|, done)
        && Decided(book, AffectedBy(g, book, seeds), SeededBy(seeds), done, lookup, accepted, rejected);
      DecidedIsSettled(g, book, seeds, done, lookup, accepted, rejected);
    }
  }

  lemma RejectedIff(g: Gates, book: Book, seeds: Seeds, individuals: map<Segment, Finding>, singles: seq<Finding>,
                    accepted: seq<Finding>, combinations: seq<Finding>)
    requires Filed(book) && SinglesKnown(book, ALL, individuals, singles)
    requires Settled(g, book, seeds, accepted, combinations)
    ensures Declined(g, book, seeds, singles + combinations)
  {
    KeysConcat(singles, combinations);
    forall c | book(c).Some? && Size(c) < 2
      ensures Affected(g, book, seeds, c) <==> book(c).value.Eligible()
      ensures Size(c) == 1 && TheDimension(c) in ALL
    {
      assert c != WHOLE;
    }
  }

  lemma RankReported(g: Gates, book: Book, seeds: Seeds, accepted: seq<Finding>, combinations: seq<Finding>)
    requires Settled(g, book, seeds, accepted, combinations)
    ensures Reported(g, book, seeds, Rank(accepted))
  {
    var ranked := Rank(accepted);
    assert |multiset(ranked)| == |ranked| && |multiset(accepted)| == |accepted|;
    assert forall f :: f in ranked <==> f in multiset(ranked);
    assert forall f :: f in accepted <==> f in multiset(accepted);
    assert Keys(ranked) == Keys(accepted);
  }

  lemma BookFiled(g: Gates, current: Window, baseline: Window)
    ensures Filed(BookOf(g, current, baseline))
  {
  }

  lemma RankedAllContribute(g: Gates, current: Window, baseline: Window, ranked: PerDimension<seq<Finding>>)
    requires Shaped(current) && RankedOver(g, current, baseline, ALL, ranked)
    ensures AllContribute(BookOf(g, current, baseline), ranked)
  {
    forall d: Dimension ensures Contributes(BookOf(g, current, baseline), d, ranked.Of(d)) {
      assert d in ALL by { match d case Region => case Method => case Version => }
      FindingsFiled(g, current, baseline, d);
      RankedContributes(g, BookOf(g, current, baseline), d,
                        Findings(g, current.dimensions.Of(d), baseline.dimensions.Of(d)));
    }
  }

  lemma Assemble(g: Gates, book: Book, individuals: map<Segment, Finding>, singles: seq<Finding>,
                 accepted: seq<Finding>, combinations: seq<Finding>, r: Analysis)
    requires Filed(book) && AllContribute(book, r.rankedDimensions)
    requires SinglesKnown(book, ALL, individuals, singles)
    requires Settled(g, book, SeedsOf(r.rankedDimensions), accepted, combinations)
    requires r.rankedCombinations == Rank(accepted) && r.rejected == singles + combinations
    requires r.best == Best(Pool(r.rankedDimensions, accepted))
    ensures Told(g, book, r)
  {
    var seeds := SeedsOf(r.rankedDimensions);
    RankReported(g, book, seeds, accepted, combinations);
    RejectedIff(g, book, seeds, individuals, singles, accepted, combinations);
    BestIsBest(g, book, seeds, r.rankedDimensions, accepted);
  }

  /** The analysis of two windows. */
  method AnalyzeWindows(g: Gates, current: Window, baseline: Window) returns (r: Analysis)
    requires Shaped(current) && Shaped(baseline)
    ensures Explains(g, current, baseline, r)
  {
    ghost var book := BookOf(g, current, baseline);
    var ranked, individuals, singles := RankDimensions(g, current, baseline);
    var seeds := SeedsOf(ranked);
    var accepted, combinations := SettleCombinations(g, current, baseline, seeds, individuals, singles);
    var best := Best(Pool(ranked, accepted));
    var completeness := if current.combinations == [] || baseline.combinations == [] then Incomplete
                        else if best.None? then InsufficientData else Complete;
    r := Analysis(completeness, ranked, Rank(accepted), best, singles + combinations);
    BookFiled(g, current, baseline);
    RankedAllContribute(g, current, baseline, ranked);
    Assemble(g, book, individuals, singles, accepted, combinations, r);
  }

  /** A pair narrows the single left without d; a triple with an affected parent narrows
      its seeded single in d twice over. */
  ghost predicate NarrowsTo(g: Gates, book: Book, seeds: Seeds, f: Finding, d: Dimension) {
    var c := f.segment;
    && (Size(c) == 2 ==>
          c.Of(d).Some? && book(c.With(d, None)).Some? && Narrows(g, f, book(c.With(d, None)).value))
    && (Size(c) == 3 && Parents(g, book, seeds, c) != [] ==>
          && c.Of(d).Some? && c.Of(d).value in seeds.Of(d)
          && book(WHOLE.With(d, c.Of(d))).Some?
          && NarrowsTwice(g, f, book(WHOLE.With(d, c.Of(d))).value))
  }

  lemma AffectedNarrows(g: Gates, book: Book, seeds: Seeds, f: Finding) returns (d: Dimension)
    requires Filed(book) && SeedsPassed(book, seeds)
    requires Affected(g, book, seeds, f.segment) && book(f.segment) == Some(f)
    ensures NarrowsTo(g, book, seeds, f, d)
  {
    d := Region;
    if Size(f.segment) == 2 {
      d := PairNarrowsSingle(g, book, seeds, f.segment);
    } else if Size(f.segment) == 3 && Parents(g, book, seeds, f.segment) != [] {
      d := TripleNarrowsTwice(g, book, seeds, f.segment);
    }
  }

  lemma ReportedAffected(g: Gates, book: Book, seeds: Seeds, fs: seq<Finding>, f: Finding)
    requires Reported(g, book, seeds, fs) && f in fs
    ensures Affected(g, book, seeds, f.segment) && book(f.segment) == Some(f)
  {
    assert f.segment in Keys(fs);
  }

  lemma ReportedSeeds(g: Gates, current: Window, baseline: Window, ranked: PerDimension<seq<Finding>>)
    requires Shaped(current) && RankedOver(g, current, baseline, ALL, ranked)
    ensures Filed(BookOf(g, current, baseline)) && SeedsPassed(BookOf(g, current, baseline), SeedsOf(ranked))
  {
    BookFiled(g, current, baseline);
    RankedAllContribute(g, current, baseline, ranked);
    SeedsOfPassed(BookOf(g, current, baseline), ranked);
  }

  /** The narrowing chain holds for everything the analysis reports. */
  lemma ReportedScopesNarrow(g: Gates, current: Window, baseline: Window, r: Analysis,
                             f: Finding) returns (d: Dimension)
    requires Shaped(current) && Explains(g, current, baseline, r) && f in r.rankedCombinations
    ensures NarrowsTo(g, BookOf(g, current, baseline), SeedsOf(r.rankedDimensions), f, d)
  {
    var book, seeds := BookOf(g, current, baseline), SeedsOf(r.rankedDimensions);
    ReportedSeeds(g, current, baseline, r.rankedDimensions);
    ReportedAffected(g, book, seeds, r.rankedCombinations, f);
    d := AffectedNarrows(g, book, seeds, f);
  }
}
