/** The loop over the combinations: each pass rolls one choice of dimensions up and
    decides its rows, and in the end exactly the affected combinations are accepted. */
module CombinationSearch {
  import opened Options
  import opened Rollups
  import opened Segments
  import opened Narrowing
  import opened Observations

  // ---- combinations ---------------------------------------------------------

  ghost function AffectedBy(g: Gates, book: Book, seeds: Seeds): Segment -> bool {
    c => Affected(g, book, seeds, c)
  }

  function SeededBy(seeds: Seeds): Segment -> bool {
    c => Seeded(seeds, c)
  }

  /** The singles, and the combinations of done that are affected. */
  ghost predicate LookupIs(book: Book, affected: Segment -> bool, done: set<Segment>, lookup: map<Segment, Finding>) {
    && (forall c :: c in lookup <==> book(c).Some? && (Size(c) == 1 || (c in done && affected(c))))
    && (forall c :: c in lookup ==> book(c) == Some(lookup[c]))
  }

  ghost predicate Decided(book: Book, affected: Segment -> bool, seeded: Segment -> bool, done: set<Segment>,
                          lookup: map<Segment, Finding>, accepted: seq<Finding>, rejected: seq<Finding>) {
    && LookupIs(book, affected, done, lookup)
    && FromBook(book, accepted) && Rejections(book, rejected)
    && Keys(accepted) == (set c | c in done && affected(c))
    && Keys(rejected) == (set c | c in done && seeded(c) && !affected(c))
    && |accepted| == |Keys(accepted)|
  }

  lemma SkipStep(book: Book, affected: Segment -> bool, seeded: Segment -> bool, done: set<Segment>,
                 lookup: map<Segment, Finding>, accepted: seq<Finding>, rejected: seq<Finding>, c: Segment)
    requires Decided(book, affected, seeded, done, lookup, accepted, rejected)
    requires Size(c) >= 2 && !seeded(c) && !affected(c)
    ensures Decided(book, affected, seeded, done + {c}, lookup, accepted, rejected)
  {
  }

  lemma RejectStep(book: Book, affected: Segment -> bool, seeded: Segment -> bool, done: set<Segment>,
                   lookup: map<Segment, Finding>, accepted: seq<Finding>, rejected: seq<Finding>, f: Finding)
    requires Decided(book, affected, seeded, done, lookup, accepted, rejected)
    requires book(f.segment) == Some(f) && Size(f.segment) >= 2 && seeded(f.segment) && !affected(f.segment)
    ensures Decided(book, affected, seeded, done + {f.segment}, lookup, accepted, rejected + [Verdict(f)])
  {
    KeysSnoc(rejected, Verdict(f));
  }

  lemma LookupStep(book: Book, affected: Segment -> bool, done: set<Segment>, lookup: map<Segment, Finding>, f: Finding)
    requires LookupIs(book, affected, done, lookup)
    requires book(f.segment) == Some(f) && affected(f.segment)
    ensures LookupIs(book, affected, done + {f.segment}, lookup[f.segment := f])
  {
    var after, c' := lookup[f.segment := f], f.segment;
    forall c ensures c in after <==> book(c).Some? && (Size(c) == 1 || (c in done + {c'} && affected(c))) {
      assert c in after <==> c in lookup || c == c';
    }
  }

  lemma AcceptedStep(affected: Segment -> bool, done: set<Segment>, accepted: seq<Finding>, f: Finding)
    requires Keys(accepted) == (set c | c in done && affected(c)) && |accepted| == |Keys(accepted)|
    requires f.segment !in done && affected(f.segment)
    ensures Keys(accepted + [f]) == (set c | c in done + {f.segment} && affected(c))
    ensures |accepted + [f]| == |Keys(accepted + [f])|
  {
    KeysSnoc(accepted, f);
  }

  lemma AcceptStep(book: Book, affected: Segment -> bool, seeded: Segment -> bool, done: set<Segment>,
                   lookup: map<Segment, Finding>, accepted: seq<Finding>, rejected: seq<Finding>, f: Finding)
    requires Decided(book, affected, seeded, done, lookup, accepted, rejected)
    requires book(f.segment) == Some(f) && f.segment !in done && affected(f.segment)
    ensures Decided(book, affected, seeded, done + {f.segment}, lookup[f.segment := f], accepted + [f], rejected)
  {
    LookupStep(book, affected, done, lookup, f);
    AcceptedStep(affected, done, accepted, f);
    assert (set c | c in done + {f.segment} && seeded(c) && !affected(c))
      == (set c | c in done && seeded(c) && !affected(c));
  }

  /** Everything c could be a child of has been decided. */
  ghost predicate ParentsDone(book: Book, done: set<Segment>, c: Segment) {
    forall d: Dimension :: c.Of(d).Some? && Size(c) >= 3 && book(c.With(d, None)).Some? ==> c.With(d, None) in done
  }

  function Standing(lookup: map<Segment, Finding>, c: Segment, d: Dimension): seq<Finding> {
    if c.Of(d).Some? && c.With(d, None) in lookup && lookup[c.With(d,
        None)].Eligible() then [lookup[c.With(d, None)]] else []
  }

  lemma StandingIsParent(g: Gates, book: Book, seeds: Seeds, done: set<Segment>, lookup: map<Segment, Finding>,
                         c: Segment, d: Dimension)
    requires LookupIs(book, AffectedBy(g, book, seeds), done, lookup) && ParentsDone(book, done, c) && Size(c) >= 2
    ensures Standing(lookup, c, d) == Parent(g, book, seeds, c, d)
  {
    if c.Of(d).Some? {
      var p := c.With(d, None);
      assert Size(p) == Size(c) - 1;
      assert p in lookup ==> book(p) == Some(lookup[p]);
      assert p in lookup <==> book(p).Some? && (Size(p) == 1 || (p in done && Affected(g, book, seeds, p)));
    }
  }

  /** The parents the loop finds are the affected ones. */
  lemma StandingAreParents(g: Gates, book: Book, seeds: Seeds, done: set<Segment>, lookup: map<Segment, Finding>,
                           c: Segment)
    requires LookupIs(book, AffectedBy(g, book, seeds), done, lookup) && ParentsDone(book, done, c) && Size(c) >= 2
    ensures Standing(lookup, c, Region) + Standing(lookup, c, Method) + Standing(lookup, c, Version)
      == Parents(g, book, seeds, c)
  {
    StandingIsParent(g, book, seeds, done, lookup, c, Region);
    StandingIsParent(g, book, seeds, done, lookup, c, Method);
    StandingIsParent(g, book, seeds, done, lookup, c, Version);
  }

  /** One row of a combination table: skipped, rejected or accepted. */
  method Consider(g: Gates, ghost book: Book, seeds: Seeds, ghost done: set<Segment>, finding: Finding,
                  lookup: map<Segment, Finding>, accepted: seq<Finding>, rejected: seq<Finding>)
    returns (lookup': map<Segment, Finding>, accepted': seq<Finding>, rejected': seq<Finding>)
    requires Decided(book, AffectedBy(g, book, seeds), SeededBy(seeds), done, lookup, accepted, rejected)
    requires book(finding.segment) == Some(finding) && Size(finding.segment) >= 2
    requires finding.segment !in done && ParentsDone(book, done, finding.segment)
    ensures Decided(book, AffectedBy(g, book, seeds), SeededBy(seeds), done + {finding.segment}, lookup', accepted',
                    rejected')
  {
    ghost var affected, seeded := AffectedBy(g, book, seeds), SeededBy(seeds);
    var c := finding.segment;
    lookup', accepted', rejected' := lookup, accepted, rejected;
    if !Seeded(seeds, c) {
      SkipStep(book, affected, seeded, done, lookup, accepted, rejected, c);
      return;
    }
    if !finding.Eligible() {
      RejectStep(book, affected, seeded, done, lookup, accepted, rejected, finding);
      rejected' := rejected + [finding];
      return;
    }
    StandingAreParents(g, book, seeds, done, lookup, c);
    var parents := Standing(lookup, c, Region) + Standing(lookup, c, Method) + Standing(lookup, c, Version);
    if parents != [] && !Narrows(g, finding, Strongest(parents)) {
      RejectStep(book, affected, seeded, done, lookup, accepted, rejected, finding);
      rejected' := rejected + [finding.(reasons := [NoMeaningfulNarrowing])];
      return;
    }
    AcceptStep(book, affected, seeded, done, lookup, accepted, rejected, finding);
    accepted' := accepted + [finding];
    lookup' := lookup[c := finding];
  }

  function RowKeys(rows: seq<Row>): set<Segment> {
    set r | r in rows :: r.segment
  }

  /** The book's finding for a row of a combination table. */
  ghost predicate RowFiled(g: Gates, book: Book, r: Row, baseline: seq<Row>) {
    Size(r.segment) >= 2 && book(r.segment) == Some(Candidate(g, r.segment, r.counter, Find(baseline, r.segment)))
  }

  ghost predicate RowsFiled(g: Gates, book: Book, rows: seq<Row>, baseline: seq<Row>) {
    forall r :: r in rows ==> RowFiled(g, book, r, baseline)
  }

  method ConsiderTable(g: Gates, ghost book: Book, seeds: Seeds, ghost done: set<Segment>, rows: seq<Row>,
                       baseline: seq<Row>,
                       lookup: map<Segment, Finding>, accepted: seq<Finding>, rejected: seq<Finding>)
    returns (lookup': map<Segment, Finding>, accepted': seq<Finding>, rejected': seq<Finding>)
    requires Decided(book, AffectedBy(g, book, seeds), SeededBy(seeds), done, lookup, accepted, rejected)
    requires Distinct(rows) && RowsFiled(g, book, rows, baseline)
    requires forall r :: r in rows ==> r.segment !in done && ParentsDone(book, done, r.segment)
    ensures Decided(book, AffectedBy(g, book, seeds), SeededBy(seeds), done + RowKeys(rows), lookup', accepted',
                    rejected')
  {
    lookup', accepted', rejected' := lookup, accepted, rejected;
    assert done + RowKeys([]) == done;
    for i := 0 to |rows|
      invariant Decided(book, AffectedBy(g, book, seeds), SeededBy(seeds), done + RowKeys(rows[..i]), lookup',
                        accepted', rejected')
    {
      var row := rows[i];
      RowKeysSnoc(rows, i);
      assert row in rows && ParentsDone(book, done, row.segment) && RowFiled(g, book, row, baseline);
      var finding := Candidate(g, row.segment, row.counter, Find(baseline, row.segment));
      lookup', accepted', rejected' :=
        Consider(g, book, seeds, done + RowKeys(rows[..i]), finding, lookup', accepted', rejected');
      assert (done + RowKeys(rows[..i])) + {row.segment} == done + RowKeys(rows[..i+1]);
    }
    assert rows[..|rows|] == rows;
  }

  lemma RowKeysSnoc(rows: seq<Row>, i: nat)
    requires i < |rows| && Distinct(rows)
    ensures RowKeys(rows[..i+1]) == RowKeys(rows[..i]) + {rows[i].segment}
    ensures rows[i].segment !in RowKeys(rows[..i])
  {
    assert rows[..i+1] == rows[..i] + [rows[i]];
    forall r | r in rows[..i] ensures r.segment in RowKeys(rows[..i+1]) && r.segment != rows[i].segment {
      assert r in rows[..i+1];
    }
    assert rows[i] in rows[..i+1];
  }

  // ---- the tables of the four dimension sets --------------------------------

  lemma RolledKeys(rows: seq<Row>, ds: Mask, c: Segment)
    requires forall i :: 0 <= i < |rows| ==> Size(rows[i].segment) == 3
    requires IsProjection(rows, ds, c)
    ensures DimensionsOf(c) == ds
  {
    var j :| 0 <= j < |rows| && c == Project(rows[j].segment, ds);
  }

  ghost predicate IsTable(g: Gates, book: Book, ds: Mask, rows: seq<Row>, baseline: seq<Row>) {
    && Distinct(rows) && RowsFiled(g, book, rows, baseline)
    && (forall c :: c in RowKeys(rows) <==> book(c).Some? && DimensionsOf(c) == ds)
  }

  /** The rolled-up table of the dimensions ds, and its counterpart in the baseline. */
  ghost predicate RolledUp(current: Window, baseline: Window, ds: Mask, rows: seq<Row>, base: seq<Row>) {
    && Distinct(rows) && AsMap(rows) == RolledTo(current.combinations, ds)
    && Distinct(base) && AsMap(base) == RolledTo(baseline.combinations, ds)
    && (forall i :: 0 <= i < |rows| ==> IsProjection(current.combinations, ds, rows[i].segment))
  }

  lemma TableRow(g: Gates, current: Window, baseline: Window, ds: Mask, rows: seq<Row>, base: seq<Row>, i: nat)
    requires Shaped(current) && Combinable(current, baseline) && Width(ds) >= 2 && i < |rows|
    requires RolledUp(current, baseline, ds, rows, base)
    ensures DimensionsOf(rows[i].segment) == ds && RowFiled(g, BookOf(g, current, baseline), rows[i], base)
  {
    var c := rows[i].segment;
    RolledKeys(current.combinations, ds, c);
    RowCounters(rows, base, i);
    EntryIs(g, current, baseline, c, rows[i].counter, Find(base, c));
  }

  lemma TableHas(g: Gates, current: Window, baseline: Window, ds: Mask, rows: seq<Row>, c: Segment)
    requires Width(ds) >= 2 && AsMap(rows) == RolledTo(current.combinations, ds)
    requires BookOf(g, current, baseline)(c).Some? && DimensionsOf(c) == ds
    ensures c in RowKeys(rows)
  {
    AsMapKeys(rows, c);
    var i :| 0 <= i < |rows| && rows[i].segment == c;
    assert rows[i] in rows;
  }

  lemma TableIs(g: Gates, current: Window, baseline: Window, ds: Mask, rows: seq<Row>, base: seq<Row>)
    requires Shaped(current) && Combinable(current, baseline) && Width(ds) >= 2
    requires RolledUp(current, baseline, ds, rows, base)
    ensures IsTable(g, BookOf(g, current, baseline), ds, rows, base)
  {
    var book := BookOf(g, current, baseline);
    forall r | r in rows ensures DimensionsOf(r.segment) == ds && RowFiled(g, book, r, base) {
      var i :| 0 <= i < |rows| && rows[i] == r;
      TableRow(g, current, baseline, ds, rows, base, i);
    }
    forall c | c in RowKeys(rows) ensures book(c).Some? && DimensionsOf(c) == ds {
      var r :| r in rows && r.segment == c;
    }
    forall c | book(c).Some? && DimensionsOf(c) == ds ensures c in RowKeys(rows) {
      TableHas(g, current, baseline, ds, rows, c);
    }
  }

  /** The pass that considers a combination: by the dimension a pair lacks, then triples. */
  function Turn(c: Segment): nat {
    if c.version.None? then 0 else if c.paymentMethod.None? then 1 else if c.region.None? then 2 else 3
  }

  lemma TurnIs(c: Segment, k: nat)
    requires k < |PAIRS_AND_TRIPLES|
    ensures DimensionsOf(c) == PAIRS_AND_TRIPLES[k] <==> Size(c) >= 2 && Turn(c) == k
    ensures Width(PAIRS_AND_TRIPLES[k]) >= 2
  {
  }

  /** The combinations of the first k passes. */
  ghost predicate DoneUpTo(book: Book, k: nat, done: set<Segment>) {
    forall c :: c in done <==> book(c).Some? && Size(c) >= 2 && Turn(c) < k
  }

  lemma TableParentsDone(book: Book, k: nat, done: set<Segment>, c: Segment)
    requires k < |PAIRS_AND_TRIPLES| && DoneUpTo(book, k, done) && DimensionsOf(c) == PAIRS_AND_TRIPLES[k]
    ensures c !in done && ParentsDone(book, done, c)
  {
    TurnIs(c, k);
    if Size(c) >= 3 {
      forall d: Dimension | book(c.With(d, None)).Some? ensures c.With(d, None) in done {
        assert Size(c.With(d, None)) == 2;
      }
    }
  }

  lemma DoneNext(book: Book, k: nat, done: set<Segment>, keys: set<Segment>)
    requires k < |PAIRS_AND_TRIPLES| && DoneUpTo(book, k, done)
    requires forall c :: c in keys <==> book(c).Some? && DimensionsOf(c) == PAIRS_AND_TRIPLES[k]
    ensures DoneUpTo(book, k + 1, done + keys)
  {
    forall c ensures c in keys <==> book(c).Some? && Size(c) >= 2 && Turn(c) == k {
      TurnIs(c, k);
    }
  }

  /** Every combination was considered. */
  ghost predicate AllDecided(book: Book, affected: Segment -> bool, seeded: Segment -> bool,
                             accepted: seq<Finding>, rejected: seq<Finding>) {
    exists done, lookup ::
      DoneUpTo(book, |PAIRS_AND_TRIPLES|, done) && Decided(book, affected, seeded, done, lookup, accepted, rejected)
  }

  method CombinationCandidates(g: Gates, current: Window, baseline: Window, seeds: Seeds, individuals: map<Segment,
                               Finding>)
    returns (accepted: seq<Finding>, rejected: seq<Finding>)
    requires Shaped(current) && Shaped(baseline) && Combinable(current, baseline)
    requires LookupIs(BookOf(g, current, baseline), AffectedBy(g, BookOf(g, current, baseline), seeds), {}, individuals)
    ensures AllDecided(BookOf(g, current, baseline), AffectedBy(g, BookOf(g, current, baseline), seeds),
                       SeededBy(seeds), accepted, rejected)
  {
    ghost var book := BookOf(g, current, baseline);
    var lookup := individuals;
    ghost var done: set<Segment> := {};
    accepted, rejected := [], [];
    for k := 0 to |PAIRS_AND_TRIPLES|
      invariant DoneUpTo(book, k, done)
      invariant Decided(book, AffectedBy(g, book, seeds), SeededBy(seeds), done, lookup, accepted, rejected)
    {
      var ds := PAIRS_AND_TRIPLES[k];
      TurnIs(WHOLE, k);
      var rows := RollupCombinations(current.combinations, ds);
      var base := RollupCombinations(baseline.combinations, ds);
      TableIs(g, current, baseline, ds, rows, base);
      forall r | r in rows ensures r.segment !in done && ParentsDone(book, done, r.segment) {
        assert r.segment in RowKeys(rows);
        TableParentsDone(book, k, done, r.segment);
      }
      lookup, accepted, rejected := ConsiderTable(g, book, seeds, done, rows, base, lookup, accepted, rejected);
      DoneNext(book, k, done, RowKeys(rows));
      done := done + RowKeys(rows);
    }
  }
}
