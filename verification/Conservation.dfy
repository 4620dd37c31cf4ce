/** What every rollup conserves.  Stated of the recount of any event sequence; module
    Aggregation shows that every bucket and every window is such a recount. */
module Conservation {
  import opened Folds
  import opened Rollups

  ghost function CodeTotal(c: Counter): nat { Fold(c.codes, AddNat, 0) }

  ghost predicate Balanced(c: Counter) {
    && c.attempts == c.approved + c.declined + c.errors
    && c.attempts == |c.latencies|
    && c.errors == CodeTotal(c)
  }

  /** The values seen in dimension d. */
  function Seen(r: Rollup, d: Dimension): (vs: set<string>)
    ensures forall v :: v in vs <==> Single(d, v) in r
  {
    var vs := set s | s in r && s.Single? && s.dimension == d :: s.value;
    assert forall v :: v in vs <==> Single(d, v) in r by {
      forall v ensures v in vs <==> Single(d, v) in r {
        if Single(d, v) in r {
          assert Single(d, v).value in vs;
        }
      }
    }
    vs
  }

  /** The counters of one dimension, by value. */
  function Singles(r: Rollup, d: Dimension): map<string, Counter> {
    map v | v in Seen(r, d) :: r[Single(d, v)]
  }

  function Combinations(r: Rollup): map<Slot, Counter> {
    map s | s in r && s.Combination? :: r[s]
  }

  /** The value a combination has in dimension d. */
  function Component(d: Dimension, s: Slot): string {
    if !s.Combination? then ""
    else match d case Region => s.region case Method => s.paymentMethod case Version => s.version
  }

  function ComponentOf(d: Dimension): Slot -> string { s => Component(d, s) }

  ghost function Total<K>(m: map<K, Counter>): Counter { Fold(m, Plus, ZERO) }
  ghost function Rolled<K, J>(m: map<K, Counter>, p: K -> J): map<J, Counter> { RollUp(m, p, Plus, ZERO) }

  lemma BalancedPlusOne(c: Counter, e: PaymentEvent)
    requires Balanced(c)
    ensures Balanced(Plus(c, One(e)))
  {
    if e.outcome.TechnicalError? {
      CodesMonoid();
      FoldAdd(c.codes, e.code, 1, AddNat, 0);
      assert AddCodes(c.codes, map[e.code := 1]) == c.codes[e.code := AddNat(At(c.codes, e.code, 0), 1)];
    } else {
      assert AddCodes(c.codes, map[]) == c.codes;
    }
  }

  lemma {:induction false} EveryCounterBalanced(es: seq<PaymentEvent>, s: Slot)
    ensures Balanced(Get(Recount(es), s))
  {
    if es == [] {
      assert CodeTotal(ZERO) == 0;
    } else {
      var prev, e := es[..|es|-1], es[|es|-1];
      EveryCounterBalanced(prev, s);
      RecountExtends(es);
      assert ExtendsAt(Recount(prev), e, Recount(es), s);
      BalancedStep(Recount(prev), e, Recount(es), s);
    }
  }

  lemma BalancedStep(r: Rollup, e: PaymentEvent, r': Rollup, s: Slot)
    requires ExtendsAt(r, e, r', s) && Balanced(Get(r, s))
    ensures Balanced(Get(r', s))
  {
    if Counts(s, e) {
      assert Get(r', s) == Plus(Get(r, s), One(e));
      BalancedPlusOne(Get(r, s), e);
    } else {
      assert Get(r', s) == Get(r, s);
    }
  }

  /** The combination e falls in. */
  function Triple(e: PaymentEvent): Slot { Combination(e.region, e.paymentMethod, e.version) }

  function Added<K>(m: map<K, Counter>, k: K, e: PaymentEvent): map<K, Counter> {
    m[k := Plus(At(m, k, ZERO), One(e))]
  }

  /** One more event adds one to one single of each dimension ... */
  lemma SinglesStep(r: Rollup, e: PaymentEvent, r': Rollup, d: Dimension)
    requires Extends(r, e, r')
    ensures Singles(r', d) == Added(Singles(r, d), Value(d, e), e)
  {
    forall v
      ensures v in Singles(r', d) <==> v in Added(Singles(r, d), Value(d, e), e)
      ensures v in Singles(r', d) ==> Singles(r', d)[v] == Added(Singles(r, d), Value(d, e), e)[v]
    {
      SinglesStepAt(r, e, r', d, v);
    }
  }

  lemma SinglesStepAt(r: Rollup, e: PaymentEvent, r': Rollup, d: Dimension, v: string)
    requires Extends(r, e, r')
    ensures v in Singles(r', d) <==> v in Added(Singles(r, d), Value(d, e), e)
    ensures v in Singles(r', d) ==> Singles(r', d)[v] == Added(Singles(r, d), Value(d, e), e)[v]
  {
    assert ExtendsAt(r, e, r', Single(d, v));
    assert Counts(Single(d, v), e) <==> v == Value(d, e);
    assert Single(d, v) in r <==> v in Singles(r, d);
  }

  /** ... and to one combination. */
  lemma CombinationsStep(r: Rollup, e: PaymentEvent, r': Rollup)
    requires Extends(r, e, r')
    ensures Combinations(r') == Added(Combinations(r), Triple(e), e)
  {
    var c, c' := Combinations(r), Combinations(r');
    forall s ensures s in c' <==> s in c || s == Triple(e) {
      assert ExtendsAt(r, e, r', s);
    }
    forall s | s in c' ensures c'[s] == Added(c, Triple(e), e)[s] {
      assert ExtendsAt(r, e, r', s);
    }
  }

  lemma TotalAdded<K>(m: map<K, Counter>, k: K, e: PaymentEvent)
    ensures Total(Added(m, k, e)) == Plus(Total(m), One(e))
  {
    PlusMonoid();
    FoldAdd(m, k, One(e), Plus, ZERO);
  }

  lemma RolledAdded<K, J(!new)>(m: map<K, Counter>, k: K, e: PaymentEvent, p: K -> J)
    ensures Rolled(Added(m, k, e), p) == Added(Rolled(m, p), p(k), e)
  {
    PlusMonoid();
    RollUpAdd(m, k, One(e), p, Plus, ZERO);
  }

  ghost predicate PartsAgree(r: Rollup, d: Dimension) {
    && Total(Singles(r, d)) == Get(r, Overall)
    && Total(Combinations(r)) == Get(r, Overall)
    && Rolled(Combinations(r), ComponentOf(d)) == Singles(r, d)
  }

  lemma PartsAgreeStep(r: Rollup, e: PaymentEvent, r': Rollup, d: Dimension)
    requires Extends(r, e, r') && PartsAgree(r, d)
    ensures PartsAgree(r', d)
  {
    SinglesStep(r, e, r', d);
    CombinationsStep(r, e, r');
    assert ExtendsAt(r, e, r', Overall);
    TotalAdded(Singles(r, d), Value(d, e), e);
    TotalAdded(Combinations(r), Triple(e), e);
    RolledAdded(Combinations(r), Triple(e), e, ComponentOf(d));
  }

  /** Each dimension, and the combinations, sum to the overall counter; and rolling the
      combinations up along a dimension gives exactly that dimension's counters. */
  lemma {:induction false} PartsSumToWhole(es: seq<PaymentEvent>, d: Dimension)
    ensures Total(Singles(Recount(es), d)) == Get(Recount(es), Overall)
    ensures Total(Combinations(Recount(es))) == Get(Recount(es), Overall)
    ensures Rolled(Combinations(Recount(es)), ComponentOf(d)) == Singles(Recount(es), d)
  {
    if es == [] {
      assert Singles(map[], d) == map[] && Combinations(map[]) == map[];
      assert Rolled(map[], ComponentOf(d)) == map[];
    } else {
      PartsSumToWhole(es[..|es|-1], d);
      RecountExtends(es);
      PartsAgreeStep(Recount(es[..|es|-1]), es[|es|-1], Recount(es), d);
    }
  }

  /** Triples rolled up to pairs and the pairs to singles give the stored counters of
      each of the two dimensions. */
  lemma TriplesToPairsToSingles(es: seq<PaymentEvent>, d1: Dimension, d2: Dimension)
    ensures var pairs := Rolled(Combinations(Recount(es)), s => (Component(d1, s), Component(d2, s)));
      && Rolled(pairs, (k: (string, string)) => k.0) == Singles(Recount(es), d1)
      && Rolled(pairs, (k: (string, string)) => k.1) == Singles(Recount(es), d2)
  {
    PlusMonoid();
    var c, pair := Combinations(Recount(es)), s => (Component(d1, s), Component(d2, s));
    RollUpTwice(c, pair, (k: (string, string)) => k.0, ComponentOf(d1), Plus, ZERO);
    RollUpTwice(c, pair, (k: (string, string)) => k.1, ComponentOf(d2), Plus, ZERO);
    PartsSumToWhole(es, d1);
    PartsSumToWhole(es, d2);
  }

  predicate Failed(e: PaymentEvent) { e.outcome.TechnicalError? }

  ghost function InGroup<J>(p: Slot -> J, j: J): PaymentEvent -> bool { e => p(Triple(e)) == j }
  ghost function FailedInGroup<J>(p: Slot -> J, j: J): PaymentEvent -> bool { e => p(Triple(e)) == j && Failed(e) }

  /** However the combinations are rolled up, each counter counts exactly the events of
      its group. */
  lemma {:induction false} RolledCounts<J(!new)>(es: seq<PaymentEvent>, p: Slot -> J, j: J)
    ensures var c := At(Rolled(Combinations(Recount(es)), p), j, ZERO);
      && c.attempts == CountIf(es, InGroup(p, j))
      && c.errors == CountIf(es, FailedInGroup(p, j))
  {
    if es == [] {
      assert Combinations(map[]) == map[];
      assert Rolled(map[], p) == map[];
    } else {
      var prev, e := es[..|es|-1], es[|es|-1];
      RolledCounts(prev, p, j);
      RecountExtends(es);
      CombinationsStep(Recount(prev), e, Recount(es));
      RolledAdded(Combinations(Recount(prev)), Triple(e), e, p);
    }
  }

  /** And it exists when there are some. */
  lemma {:induction false} RolledKeys<J(!new)>(es: seq<PaymentEvent>, p: Slot -> J, j: J)
    ensures j in Rolled(Combinations(Recount(es)), p) <==> CountIf(es, InGroup(p, j)) > 0
  {
    if es == [] {
      assert Combinations(map[]) == map[];
      assert Rolled(map[], p) == map[];
    } else {
      var prev, e := es[..|es|-1], es[|es|-1];
      RolledKeys(prev, p, j);
      RecountExtends(es);
      CombinationsStep(Recount(prev), e, Recount(es));
      RolledAdded(Combinations(Recount(prev)), Triple(e), e, p);
    }
  }

  // ---- everything at once ---------------------------------------------------

  ghost predicate PairsAgree(r: Rollup, d1: Dimension, d2: Dimension) {
    var pairs := Rolled(Combinations(r), s => (Component(d1, s), Component(d2, s)));
    && Rolled(pairs, (k: (string, string)) => k.0) == Singles(r, d1)
    && Rolled(pairs, (k: (string, string)) => k.1) == Singles(r, d2)
  }

  /** Every counter is balanced, the parts sum to the whole, and the combinations roll up
      to pairs and to singles. */
  ghost predicate Conserved(r: Rollup) {
    && (forall slot :: Balanced(Get(r, slot)))
    && (forall d :: PartsAgree(r, d))
    && (forall d1, d2 :: PairsAgree(r, d1, d2))
  }

  ghost predicate IsRecount(r: Rollup) { exists es :: r == Recount(es) }

  lemma RecountConserved(r: Rollup)
    requires IsRecount(r)
    ensures Conserved(r)
  {
    var es :| r == Recount(es);
    forall slot ensures Balanced(Get(r, slot)) {
      EveryCounterBalanced(es, slot);
    }
    forall d ensures PartsAgree(r, d) {
      PartsSumToWhole(es, d);
    }
    forall d1, d2 ensures PairsAgree(r, d1, d2) {
      TriplesToPairsToSingles(es, d1, d2);
    }
  }

  lemma {:induction false} RecountConcat(es: seq<PaymentEvent>, fs: seq<PaymentEvent>)
    ensures Recount(es + fs) == Merge(Recount(es), Recount(fs))
  {
    MergeMonoid();
    if fs == [] {
      assert es + fs == es;
      assert Neutral(Merge, Recount(es), map[]);
    } else {
      var prev, e := fs[..|fs|-1], fs[|fs|-1];
      RecountConcat(es, prev);
      assert (es + fs)[..|es + fs|-1] == es + prev;
      assert Associates(Merge, Recount(es), Recount(prev), OneRollup(e));
    }
  }

  lemma MergeOfRecounts(a: Rollup, b: Rollup)
    requires IsRecount(a) && IsRecount(b)
    ensures IsRecount(Merge(a, b))
  {
    var es :| a == Recount(es);
    var fs :| b == Recount(fs);
    RecountConcat(es, fs);
  }

  /** A recount of parts, whichever of them are added up, is a recount. */
  lemma {:induction false} MergedIsRecount<K>(parts: map<K, Rollup>)
    requires forall k :: k in parts ==> IsRecount(parts[k])
    ensures IsRecount(Fold(parts, Merge, map[]))
    decreases |parts|
  {
    if parts == map[] {
      assert Recount([]) == map[];
    } else {
      var k :| k in parts;
      MergeMonoid();
      FoldOut(parts, k, Merge, map[]);
      MergedIsRecount(parts - {k});
      MergeOfRecounts(Fold(parts - {k}, Merge, map[]), parts[k]);
    }
  }
}
