/** The segments two windows show, and the book of their findings. */
module Observations {
  import opened Options
  import opened Folds
  import opened Rollups
  import opened Segments
  import opened Narrowing

  /** The dimensions c fixes. */
  function DimensionsOf(c: Segment): Mask {
    PerDimension(c.region.Some?, c.paymentMethod.Some?, c.version.Some?)
  }

  function Width(ds: Mask): nat {
    (if ds.region then 1 else 0) + (if ds.paymentMethod then 1 else 0) + (if ds.version then 1 else 0)
  }

  /** Pairs in dimension order, then triples. */
  const PAIRS_AND_TRIPLES: seq<Mask> :=
    [PerDimension(true, true, false), PerDimension(true, false, true),
     PerDimension(false, true, true), PerDimension(true, true, true)]

  ghost function CountersOf(w: Window, c: Segment): map<Segment, Counter> {
    if Size(c) == 1 then AsMap(w.dimensions.Of(TheDimension(c))) else RolledTo(w.combinations, DimensionsOf(c))
  }

  function TheDimension(c: Segment): Dimension {
    if c.region.Some? then Region else if c.paymentMethod.Some? then Method else Version
  }

  /** Combinations are analysed only when both windows have some. */
  predicate Combinable(current: Window, baseline: Window) {
    current.combinations != [] && baseline.combinations != []
  }

  /** The finding of every observed segment: stored counters for singles, rolled-up ones
      for combinations; a segment the baseline never saw is compared with nothing. */
  ghost function Entry(g: Gates, current: Window, baseline: Window, c: Segment): Option<Finding> {
    var counters := CountersOf(current, c);
    if Size(c) >= 1 && (Size(c) >= 2 ==> Combinable(current, baseline)) && c in counters
    then Some(Candidate(g, c, counters[c], At(CountersOf(baseline, c), c, ZERO)))
    else None
  }

  ghost function BookOf(g: Gates, current: Window, baseline: Window): Book {
    c => Entry(g, current, baseline, c)
  }

  lemma EntryIs(g: Gates, current: Window, baseline: Window, c: Segment, x: Counter, y: Counter)
    requires Size(c) >= 1 && (Size(c) >= 2 ==> Combinable(current, baseline))
    requires c in CountersOf(current, c) && CountersOf(current, c)[c] == x && At(CountersOf(baseline, c), c, ZERO) == y
    ensures Entry(g, current, baseline, c) == Some(Candidate(g, c, x, y))
  {
  }

  lemma RowCounters(rows: seq<Row>, base: seq<Row>, i: nat)
    requires Distinct(rows) && i < |rows|
    ensures var c := rows[i].segment;
      c in AsMap(rows) && AsMap(rows)[c] == rows[i].counter && At(AsMap(base), c, ZERO) == Find(base, c)
  {
    AsMapPut(rows, i, ZERO);
    AsMapKeys(base, rows[i].segment);
  }

  function Keys(fs: seq<Finding>): set<Segment> {
    set f | f in fs :: f.segment
  }

  /** Each finding is the one the book holds for its segment. */
  ghost predicate FromBook(book: Book, fs: seq<Finding>) {
    forall f :: f in fs ==> book(f.segment) == Some(f)
  }

  /** A rejected finding carries the gates it failed, or that it narrowed nothing. */
  ghost predicate Rejections(book: Book, fs: seq<Finding>) {
    forall f :: f in fs ==> book(f.segment).Some? && f == Verdict(book(f.segment).value)
  }

  function Verdict(f: Finding): (r: Finding)
    ensures !r.Eligible()
  {
    if f.Eligible() then f.(reasons := [NoMeaningfulNarrowing]) else f
  }

  lemma KeysSnoc(fs: seq<Finding>, f: Finding)
    ensures Keys(fs + [f]) == Keys(fs) + {f.segment}
  {
    forall h | h in fs ensures h.segment in Keys(fs + [f]) {
      assert h in fs + [f];
    }
    assert f in fs + [f];
  }

  lemma KeysConcat(fs: seq<Finding>, hs: seq<Finding>)
    ensures Keys(fs + hs) == Keys(fs) + Keys(hs)
  {
    forall f | f in fs || f in hs ensures f.segment in Keys(fs + hs) {
      assert f in fs + hs;
    }
  }
}
