/** What the narrowing rule guarantees about the segments it lets through. */
module NarrowingChain {
  import opened Options
  import opened Rollups
  import opened Segments
  import opened Narrowing

  /** The book files each finding under its own segment, and nothing under the whole. */
  ghost predicate Filed(book: Book) {
    book(WHOLE).None? && forall c :: book(c).Some? ==> book(c).value.segment == c
  }

  /** Seeds are values of singles that passed the gates. */
  ghost predicate SeedsPassed(book: Book, seeds: Seeds) {
    forall d, v :: v in seeds.Of(d) ==>
      book(WHOLE.With(d, Some(v))).Some? && book(WHOLE.With(d, Some(v))).value.Eligible()
  }

  lemma ParentIs(g: Gates, book: Book, seeds: Seeds, c: Segment, d: Dimension, f: Finding)
    requires Filed(book) && f in Parent(g, book, seeds, c, d)
    ensures c.Of(d).Some? && f.segment == c.With(d, None)
    ensures Affected(g, book, seeds, f.segment) && book(f.segment) == Some(f)
  {
  }

  lemma ParentFrom(g: Gates, book: Book, seeds: Seeds, c: Segment, f: Finding) returns (d: Dimension)
    requires Filed(book) && f in Parents(g, book, seeds, c)
    ensures Affected(g, book, seeds, f.segment) && book(f.segment) == Some(f)
    ensures c.Of(d).Some? && f.segment == c.With(d, None)
  {
    d := if f in Parent(g, book, seeds, c, Region) then Region
         else if f in Parent(g, book, seeds, c, Method) then Method else Version;
    ParentIs(g, book, seeds, c, d, f);
  }

  /** Either single of a seeded pair is one of its parents. */
  lemma PairHasParents(g: Gates, book: Book, seeds: Seeds, c: Segment, d: Dimension)
    requires SeedsPassed(book, seeds) && Size(c) == 2 && Seeded(seeds, c) && c.Of(d).Some?
    ensures book(c.With(d, None)).Some? && book(c.With(d, None)).value in Parents(g, book, seeds, c)
  {
    var e: Dimension := OtherDimension(c, d);
    assert c.With(d, None) == WHOLE.With(e, c.Of(e));
    assert c.Of(e).value in seeds.Of(e);
    assert book(c.With(d, None)).value in Parent(g, book, seeds, c, d);
  }

  function OtherDimension(c: Segment, d: Dimension): (e: Dimension)
    requires Size(c) == 2 && c.Of(d).Some?
    ensures e != d && c.Of(e).Some? && c.With(d, None) == WHOLE.With(e, c.Of(e))
  {
    if d != Region && c.region.Some? then Region
    else if d != Method && c.paymentMethod.Some? then Method
    else Version
  }

  predicate Retains(g: Gates, f: Finding, parent: Finding) {
    f.excess >= parent.excess * g.retention
  }

  lemma RetainsWeaker(g: Gates, f: Finding, p: Finding, q: Finding)
    requires Narrows(g, f, p) && q.excess <= p.excess
    ensures Retains(g, f, q)
  {
  }

  lemma PairRetains(g: Gates, book: Book, seeds: Seeds, c: Segment, d: Dimension)
    requires SeedsPassed(book, seeds) && Size(c) == 2 && Affected(g, book, seeds, c) && c.Of(d).Some?
    ensures Parents(g, book, seeds, c) != []
    ensures Narrows(g, book(c).value, Strongest(Parents(g, book, seeds, c)))
    ensures book(c.With(d, None)).Some? && Retains(g, book(c).value, book(c.With(d, None)).value)
  {
    PairHasParents(g, book, seeds, c, d);
    var parents := Parents(g, book, seeds, c);
    RetainsWeaker(g, book(c).value, Strongest(parents), book(c.With(d, None)).value);
  }

  /** An accepted pair keeps the configured share of the excess of both of its singles,
      and improves on the rate of the one with more. */
  lemma PairNarrows(g: Gates, book: Book, seeds: Seeds, c: Segment)
    requires SeedsPassed(book, seeds) && Size(c) == 2 && Affected(g, book, seeds, c)
    ensures Parents(g, book, seeds, c) != []
    ensures Narrows(g, book(c).value, Strongest(Parents(g, book, seeds, c)))
    ensures forall d: Dimension :: c.Of(d).Some? ==>
      book(c.With(d, None)).Some? && Retains(g, book(c).value, book(c.With(d, None)).value)
  {
    PairRetains(g, book, seeds, c, if c.region.Some? then Region else Method);
    forall d: Dimension | c.Of(d).Some?
      ensures book(c.With(d, None)).Some? && Retains(g, book(c).value, book(c.With(d, None)).value)
    {
      PairRetains(g, book, seeds, c, d);
    }
  }

  /** Excess at least the squared share, and rate at least the squared improvement. */
  predicate NarrowsTwice(g: Gates, f: Finding, q: Finding) {
    && f.excess >= q.excess * (g.retention * g.retention)
    && f.rate >= q.rate * ((1.0 + g.improvement) * (1.0 + g.improvement))
  }

  lemma Scale(x: real, y: real, z: real, r: real)
    requires x >= y * r && y >= z * r && r >= 0.0
    ensures x >= z * (r * r)
  {
    assert y * r >= (z * r) * r;
  }

  lemma NarrowingComposes(g: Gates, f: Finding, p: Finding, q: Finding)
    requires Narrows(g, f, p) && Narrows(g, p, q)
    ensures NarrowsTwice(g, f, q)
  {
    Scale(f.excess, p.excess, q.excess, g.retention);
    Scale(f.rate, p.rate, q.rate, 1.0 + g.improvement);
  }

  /** The single that the strongest parent of a pair is. */
  lemma PairNarrowsSingle(g: Gates, book: Book, seeds: Seeds, c: Segment) returns (d: Dimension)
    requires Filed(book) && SeedsPassed(book, seeds) && Size(c) == 2 && Affected(g, book, seeds, c)
    ensures c.Of(d).Some? && book(c.With(d, None)).Some?
    ensures Narrows(g, book(c).value, book(c.With(d, None)).value)
  {
    PairNarrows(g, book, seeds, c);
    d := ParentFrom(g, book, seeds, c, Strongest(Parents(g, book, seeds, c)));
  }

  /** What is left of a triple without two of its dimensions. */
  lemma LeftOver(c: Segment, lost: Dimension, next: Dimension)
    requires Size(c) == 3 && c.With(lost, None).Of(next).Some?
    ensures Size(c.With(lost, None)) == 2
    ensures var d := OtherDimension(c.With(lost, None), next);
      c.Of(d).Some? && c.With(lost, None).With(next, None) == WHOLE.With(d, c.Of(d))
  {
  }

  /** The strongest parent of an accepted triple is a pair, and the strongest parent of
      that pair a seeded single of the triple; the triple narrows that single twice. */
  lemma TripleNarrowsTwice(g: Gates, book: Book, seeds: Seeds, c: Segment) returns (d: Dimension)
    requires Filed(book) && SeedsPassed(book, seeds)
    requires Size(c) == 3 && Affected(g, book, seeds, c) && Parents(g, book, seeds, c) != []
    ensures c.Of(d).value in seeds.Of(d) && book(WHOLE.With(d, c.Of(d))).Some?
    ensures NarrowsTwice(g, book(c).value, book(WHOLE.With(d, c.Of(d))).value)
  {
    var pair := Strongest(Parents(g, book, seeds, c));
    var lost := ParentFrom(g, book, seeds, c, pair);
    assert Size(pair.segment) == 2;
    var next := PairNarrowsSingle(g, book, seeds, pair.segment);
    LeftOver(c, lost, next);
    d := OtherDimension(pair.segment, next);
    NarrowingComposes(g, book(c).value, pair, book(WHOLE.With(d, c.Of(d))).value);
  }

  /** A triple all of whose pairs were rejected is not compared with anything: it is
      accepted exactly when it is seeded and passes the gates. */
  lemma OrphanTripleUnchecked(g: Gates, book: Book, seeds: Seeds, c: Segment)
    requires Size(c) == 3 && book(c).Some?
    requires forall d: Dimension :: !Affected(g, book, seeds, c.With(d, None))
    ensures Affected(g, book, seeds, c) <==> book(c).value.Eligible() && Seeded(seeds, c)
  {
    assert Parents(g, book, seeds, c) == [];
  }
}
