/** Segments of the traffic, and rolling the observed combinations up to them. */
module Segments {
  import opened Lists
  import opened Options
  import opened Folds
  import opened Rollups
  import Conservation

  datatype PerDimension<T> = PerDimension(region: T, paymentMethod: T, version: T) {
    function Of(d: Dimension): T {
      match d case Region => region case Method => paymentMethod case Version => version
    }

    function With(d: Dimension, x: T): PerDimension<T> {
      match d
      case Region => this.(region := x)
      case Method => this.(paymentMethod := x)
      case Version => this.(version := x)
    }
  }

  /** A segment fixes the value of some dimensions. */
  type Segment = PerDimension<Option<string>>

  const WHOLE: Segment := PerDimension(None, None, None)

  /** A choice of dimensions. */
  type Mask = PerDimension<bool>

  function Size(c: Segment): nat {
    (if c.region.Some? then 1 else 0) + (if c.paymentMethod.Some? then 1 else 0) + (if c.version.Some? then 1 else 0)
  }

  function Project(c: Segment, ds: Mask): Segment {
    PerDimension(if ds.region then c.region else None,
                 if ds.paymentMethod then c.paymentMethod else None,
                 if ds.version then c.version else None)
  }

  /** A dict of counters in insertion order. */
  datatype Row = Row(segment: Segment, counter: Counter)

  datatype Window = Window(dimensions: PerDimension<seq<Row>>, combinations: seq<Row>)

  predicate Distinct(rows: seq<Row>) {
    forall i, j :: 0 <= i < j < |rows| ==> rows[i].segment != rows[j].segment
  }

  predicate Shaped(w: Window) {
    && (forall d :: Distinct(w.dimensions.Of(d)))
    && (forall d, i :: 0 <= i < |w.dimensions.Of(d)| ==> OnlyDimension(w.dimensions.Of(d)[i].segment, d))
    && Distinct(w.combinations)
    && (forall i :: 0 <= i < |w.combinations| ==> Size(w.combinations[i].segment) == 3)
  }

  predicate OnlyDimension(c: Segment, d: Dimension) {
    c.Of(d).Some? && Size(c) == 1
  }

  function Find(rows: seq<Row>, c: Segment): Counter {
    if rows == [] then ZERO
    else if Last(rows).segment == c then Last(rows).counter
    else Find(Front(rows), c)
  }

  // ---- rolling combinations up ----------------------------------------------

  function AsMap(rows: seq<Row>): map<Segment, Counter> {
    if rows == [] then map[] else AsMap(Front(rows))[Last(rows).segment := Last(rows).counter]
  }

  lemma {:induction false} AsMapKeys(rows: seq<Row>, c: Segment)
    ensures c in AsMap(rows) <==> exists i :: 0 <= i < |rows| && rows[i].segment == c
    ensures c in AsMap(rows) ==> AsMap(rows)[c] == Find(rows, c)
    ensures c !in AsMap(rows) ==> Find(rows, c) == ZERO
  {
    if rows != [] {
      AsMapKeys(Front(rows), c);
      if Last(rows).segment == c {
        assert rows[|rows|-1].segment == c;
      } else if c in AsMap(Front(rows)) {
        var i :| 0 <= i < |Front(rows)| && Front(rows)[i].segment == c;
        assert rows[i].segment == c;
      } else {
        forall i | 0 <= i < |rows| ensures rows[i].segment != c {
          assert i < |Front(rows)| ==> Front(rows)[i] == rows[i];
        }
      }
    }
  }

  function ProjectTo(ds: Mask): Segment -> Segment { c => Project(c, ds) }

  /** The counters of the combinations, added up by the values in the dimensions ds. */
  ghost function RolledTo(rows: seq<Row>, ds: Mask): map<Segment, Counter> {
    Conservation.Rolled(AsMap(rows), ProjectTo(ds))
  }

  lemma RolledSnoc(rows: seq<Row>, ds: Mask, n: nat)
    requires Distinct(rows) && n < |rows|
    ensures var k := Project(rows[n].segment, ds);
      RolledTo(rows[..n+1], ds) ==
        RolledTo(rows[..n], ds)[k := Plus(At(RolledTo(rows[..n], ds), k, ZERO), rows[n].counter)]
  {
    assert Front(rows[..n+1]) == rows[..n];
    AsMapKeys(rows[..n], rows[n].segment);
    PlusMonoid();
    PlusUnit(rows[n].counter);
    RollUpAdd(AsMap(rows[..n]), rows[n].segment, rows[n].counter, ProjectTo(ds), Plus, ZERO);
  }

  lemma AsMapPut(rows: seq<Row>, i: nat, x: Counter)
    requires Distinct(rows) && i < |rows|
    ensures AsMap(rows[i := rows[i].(counter := x)]) == AsMap(rows)[rows[i].segment := x]
    ensures AsMap(rows)[rows[i].segment := x] == AsMap(rows) + map[rows[i].segment := x]
    ensures rows[i].segment in AsMap(rows) && AsMap(rows)[rows[i].segment] == rows[i].counter
    decreases |rows|
  {
    var after := rows[i := rows[i].(counter := x)];
    if i < |rows| - 1 {
      AsMapPut(Front(rows), i, x);
      assert Front(after) == Front(rows)[i := rows[i].(counter := x)];
    } else {
      assert Front(after) == Front(rows);
    }
  }

  /** Merges a counter into the dict under key. */
  method MergeRow(rows: seq<Row>, key: Segment, x: Counter) returns (merged: seq<Row>)
    requires Distinct(rows)
    ensures Distinct(merged) && AsMap(merged) == AsMap(rows)[key := Plus(At(AsMap(rows), key, ZERO), x)]
    ensures forall i :: 0 <= i < |merged| ==>
      merged[i].segment == key || (i < |rows| && merged[i].segment == rows[i].segment)
  {
    var i := IndexOf(rows, key);
    AsMapKeys(rows, key);
    PlusUnit(x);
    if i < |rows| {
      AsMapPut(rows, i, Plus(rows[i].counter, x));
      merged := rows[i := rows[i].(counter := Plus(rows[i].counter, x))];
    } else {
      assert Front(rows + [Row(key, x)]) == rows;
      merged := rows + [Row(key, x)];
    }
  }

  /** One pass over the combinations, merging into a dict by projected key. */
  method RollupCombinations(rows: seq<Row>, ds: Mask) returns (rolled: seq<Row>)
    requires Distinct(rows)
    ensures Distinct(rolled) && AsMap(rolled) == RolledTo(rows, ds)
    ensures forall i :: 0 <= i < |rolled| ==> IsProjection(rows, ds, rolled[i].segment)
  {
    rolled := [];
    assert rows[..0] == [];
    assert RolledTo([], ds) == map[];
    for n := 0 to |rows|
      invariant Distinct(rolled) && AsMap(rolled) == RolledTo(rows[..n], ds)
      invariant forall i :: 0 <= i < |rolled| ==> IsProjection(rows, ds, rolled[i].segment)
    {
      RolledSnoc(rows, ds, n);
      assert IsProjection(rows, ds, Project(rows[n].segment, ds));
      rolled := MergeRow(rolled, Project(rows[n].segment, ds), rows[n].counter);
    }
    assert rows[..|rows|] == rows;
  }

  predicate IsProjection(rows: seq<Row>, ds: Mask, c: Segment) {
    exists j :: 0 <= j < |rows| && c == Project(rows[j].segment, ds)
  }

  method IndexOf(rows: seq<Row>, c: Segment) returns (i: nat)
    ensures i <= |rows| && (i < |rows| ==> rows[i].segment == c)
    ensures forall j :: 0 <= j < i ==> rows[j].segment != c
  {
    i := 0;
    while i < |rows| && rows[i].segment != c
      invariant i <= |rows| && forall j :: 0 <= j < i ==> rows[j].segment != c
    {
      i := i + 1;
    }
  }
}
