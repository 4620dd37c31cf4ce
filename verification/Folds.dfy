/** Order-free sums over finite maps.  A Python dict is walked in some order; every
    total the repository takes over a dict is a fold with a commutative operation, so
    the order cannot matter.  The lemmas here are what the other modules use to say so. */
module Folds {

  predicate Commutes<V(==)>(plus: (V, V) -> V, a: V, b: V) { plus(a, b) == plus(b, a) }
  predicate Associates<V(==)>(plus: (V, V) -> V, a: V, b: V, c: V) { plus(plus(a, b), c) == plus(a, plus(b, c)) }
  predicate Neutral<V(==)>(plus: (V, V) -> V, a: V, zero: V) { plus(a, zero) == a }

  ghost predicate CommutativeMonoid<V(!new)>(plus: (V, V) -> V, zero: V) {
    && (forall a, b :: Commutes(plus, a, b))
    && (forall a, b, c :: Associates(plus, a, b, c))
    && (forall a :: Neutral(plus, a, zero))
  }

  lemma Swap<V(!new)>(plus: (V, V) -> V, zero: V, a: V, b: V, c: V)
    requires CommutativeMonoid(plus, zero)
    ensures plus(plus(a, b), c) == plus(plus(a, c), b)
  {
    assert Associates(plus, a, b, c) && Associates(plus, a, c, b) && Commutes(plus, b, c);
  }

  function AddNat(a: nat, b: nat): nat { a + b }

  /** The sum of the values of m. */
  ghost function Fold<K, V>(m: map<K, V>, plus: (V, V) -> V, zero: V): V
    decreases |m|
  {
    if m == map[] then zero
    else
      var k :| k in m;
      plus(Fold(m - {k}, plus, zero), m[k])
  }

  /** Any key may be taken out first. */
  lemma {:induction false} FoldOut<K, V(!new)>(m: map<K, V>, k: K, plus: (V, V) -> V, zero: V)
    requires CommutativeMonoid(plus, zero)
    requires k in m
    ensures Fold(m, plus, zero) == plus(Fold(m - {k}, plus, zero), m[k])
    decreases |m|
  {
    var j :| j in m && Fold(m, plus, zero) == plus(Fold(m - {j}, plus, zero), m[j]);
    if j != k {
      FoldOut(m - {j}, k, plus, zero);
      FoldOut(m - {k}, j, plus, zero);
      assert m - {j} - {k} == m - {k} - {j};
      Swap(plus, zero, Fold(m - {j} - {k}, plus, zero), m[k], m[j]);
    }
  }

  /** The value at k, or zero. */
  function At<K, V>(m: map<K, V>, k: K, zero: V): V {
    if k in m then m[k] else zero
  }

  /** Adding x at key k adds x to the sum. */
  lemma FoldAdd<K, V(!new)>(m: map<K, V>, k: K, x: V, plus: (V, V) -> V, zero: V)
    requires CommutativeMonoid(plus, zero)
    ensures Fold(m[k := plus(At(m, k, zero), x)], plus, zero) == plus(Fold(m, plus, zero), x)
  {
    var m' := m[k := plus(At(m, k, zero), x)];
    FoldOut(m', k, plus, zero);
    assert m' - {k} == m - {k};
    var rest := Fold(m - {k}, plus, zero);
    if k in m {
      FoldOut(m, k, plus, zero);
      assert Associates(plus, rest, m[k], x);
    } else {
      assert m - {k} == m;
      assert Commutes(plus, zero, x) && Neutral(plus, x, zero);
    }
  }

  /** The entries whose key satisfies p. */
  function Where<K, V>(m: map<K, V>, p: K -> bool): map<K, V> {
    map k | k in m && p(k) :: m[k]
  }

  lemma FoldWhereAdd<K, V(!new)>(m: map<K, V>, p: K -> bool, k: K, x: V, plus: (V, V) -> V, zero: V)
    requires CommutativeMonoid(plus, zero)
    ensures var was := Fold(Where(m, p), plus, zero);
      Fold(Where(m[k := plus(At(m, k, zero), x)], p), plus, zero) == if p(k) then plus(was, x) else was
  {
    var w, w' := Where(m, p), Where(m[k := plus(At(m, k, zero), x)], p);
    if p(k) {
      FoldAdd(w, k, x, plus, zero);
      assert w' == w[k := plus(At(w, k, zero), x)];
    } else {
      assert w' == w;
    }
  }

  /** The sum of one(e) over a sequence. */
  function SumOf<E, V>(es: seq<E>, one: E -> V, plus: (V, V) -> V, zero: V): V {
    if es == [] then zero else plus(SumOf(es[..|es|-1], one, plus, zero), one(es[|es|-1]))
  }

  /** Any position may be taken out first. */
  lemma {:induction false} SumOut<E, V(!new)>(es: seq<E>, i: nat, one: E -> V, plus: (V, V) -> V, zero: V)
    requires CommutativeMonoid(plus, zero)
    requires i < |es|
    ensures SumOf(es, one, plus, zero) == plus(SumOf(es[..i] + es[i+1..], one, plus, zero), one(es[i]))
  {
    var n := |es| - 1;
    if i == n {
      assert es[..i] + es[i+1..] == es[..n];
    } else {
      SumOut(es[..n], i, one, plus, zero);
      var rest := es[..n][..i] + es[..n][i+1..];
      assert es[..i] + es[i+1..] == rest + [es[n]];
      assert (rest + [es[n]])[..|rest|] == rest;
      Swap(plus, zero, SumOf(rest, one, plus, zero), one(es[i]), one(es[n]));
    }
  }

  lemma Cancel<E>(a: multiset<E>, b: multiset<E>, x: E)
    requires a + multiset{x} == b + multiset{x}
    ensures a == b
  {
    assert a == (a + multiset{x}) - multiset{x};
    assert b == (b + multiset{x}) - multiset{x};
  }

  lemma TakeOut<E>(es: seq<E>, fs: seq<E>) returns (i: nat)
    requires es != [] && multiset(es) == multiset(fs)
    ensures i < |fs| && fs[i] == es[|es|-1]
    ensures multiset(es[..|es|-1]) == multiset(fs[..i] + fs[i+1..])
  {
    var front, x := es[..|es|-1], es[|es|-1];
    assert es == front + [x];
    assert x in multiset(fs);
    i :| 0 <= i < |fs| && fs[i] == x;
    var l, r := fs[..i], fs[i+1..];
    assert fs == l + ([x] + r);
    assert multiset(fs) == multiset(l) + multiset([x] + r) == multiset(l) + (multiset{x} + multiset(r));
    assert multiset(l) + (multiset{x} + multiset(r)) == multiset(l + r) + multiset{x};
    Cancel(multiset(front), multiset(l + r), x);
  }

  /** The sum does not depend on the order. */
  lemma {:induction false} SumOrderFree<E, V(!new)>(es: seq<E>, fs: seq<E>, one: E -> V, plus: (V, V) -> V, zero: V)
    requires CommutativeMonoid(plus, zero)
    requires multiset(es) == multiset(fs)
    ensures SumOf(es, one, plus, zero) == SumOf(fs, one, plus, zero)
    decreases |es|
  {
    if es == [] {
      assert |multiset(fs)| == |fs| == 0;
    } else {
      var i := TakeOut(es, fs);
      SumOrderFree(es[..|es|-1], fs[..i] + fs[i+1..], one, plus, zero);
      SumOut(fs, i, one, plus, zero);
    }
  }

  /** Key-by-key addition; a missing key counts as zero. */
  function Pointwise<K, V>(a: map<K, V>, b: map<K, V>, plus: (V, V) -> V): map<K, V> {
    map k | k in a.Keys + b.Keys ::
      if k in a && k in b then plus(a[k], b[k]) else if k in a then a[k] else b[k]
  }

  lemma PointwiseAt<K, V>(a: map<K, V>, b: map<K, V>, k: K, plus: (V, V) -> V, zero: V)
    requires plus(At(a, k, zero), zero) == At(a, k, zero)
    requires plus(zero, At(b, k, zero)) == At(b, k, zero)
    ensures At(Pointwise(a, b, plus), k, zero) == plus(At(a, k, zero), At(b, k, zero))
  {
  }

  lemma PointwiseMonoid<K(!new), V(!new)>(plus: (V, V) -> V, zero: V, op: (map<K, V>, map<K, V>) -> map<K, V>)
    requires CommutativeMonoid(plus, zero)
    requires forall a, b :: op(a, b) == Pointwise(a, b, plus)
    ensures CommutativeMonoid(op, map[])
  {
    forall a, b ensures Commutes(op, a, b) {
      forall k | k in a && k in b ensures plus(a[k], b[k]) == plus(b[k], a[k]) {
        assert Commutes(plus, a[k], b[k]);
      }
      assert Pointwise(a, b, plus) == Pointwise(b, a, plus);
    }
    forall a, b, c ensures Associates(op, a, b, c) {
      forall k | k in a && k in b && k in c
        ensures plus(plus(a[k], b[k]), c[k]) == plus(a[k], plus(b[k], c[k]))
      {
        assert Associates(plus, a[k], b[k], c[k]);
      }
      assert Pointwise(Pointwise(a, b, plus), c, plus) == Pointwise(a, Pointwise(b, c, plus), plus);
    }
    forall a ensures Neutral(op, a, map[]) {
      assert Pointwise(a, map[], plus) == a;
    }
  }

  ghost function Groups<K, J, V>(m: map<K, V>, p: K -> J): set<J> { set k | k in m :: p(k) }

  function Group<K, J(==), V>(m: map<K, V>, p: K -> J, j: J): map<K, V> { map k | k in m && p(k) == j :: m[k] }

  /** Grouping the entries of m by p and summing each group. */
  ghost function RollUp<K, J, V>(m: map<K, V>, p: K -> J, plus: (V, V) -> V, zero: V): map<J, V> {
    map j | j in Groups(m, p) :: Fold(Group(m, p, j), plus, zero)
  }

  lemma GroupAdd<K, J(!new), V(!new)>(m: map<K, V>, k: K, x: V, p: K -> J, j: J, plus: (V, V) -> V, zero: V)
    requires CommutativeMonoid(plus, zero)
    ensures var m' := m[k := plus(At(m, k, zero), x)];
      Fold(Group(m', p, j), plus, zero) ==
        if j == p(k) then plus(Fold(Group(m, p, j), plus, zero), x) else Fold(Group(m, p, j), plus, zero)
  {
    var g, g' := Group(m, p, j), Group(m[k := plus(At(m, k, zero), x)], p, j);
    if j == p(k) {
      assert g' == g[k := plus(At(g, k, zero), x)];
      FoldAdd(g, k, x, plus, zero);
    } else {
      assert g' == g;
    }
  }

  lemma RollUpAdd<K, J(!new), V(!new)>(m: map<K, V>, k: K, x: V, p: K -> J, plus: (V, V) -> V, zero: V)
    requires CommutativeMonoid(plus, zero)
    ensures var r := RollUp(m, p, plus, zero);
      RollUp(m[k := plus(At(m, k, zero), x)], p, plus, zero) == r[p(k) := plus(At(r, p(k), zero), x)]
  {
    var m' := m[k := plus(At(m, k, zero), x)];
    var r, r' := RollUp(m, p, plus, zero), RollUp(m', p, plus, zero);
    assert forall i :: i in m' <==> i in m || i == k;
    assert Groups(m', p) == Groups(m, p) + {p(k)};
    if p(k) !in r {
      assert Group(m, p, p(k)) == map[];
    }
    forall j | j in r' ensures r'[j] == if j == p(k) then plus(At(r, j, zero), x) else r[j] {
      GroupAdd(m, k, x, p, j, plus, zero);
    }
  }

  /** Rolling up in two steps is rolling up at once. */
  lemma {:induction false} RollUpTwice<K, J(!new), I(!new), V(!new)>(
      m: map<K, V>, p: K -> J, q: J -> I, pq: K -> I, plus: (V, V) -> V, zero: V)
    requires CommutativeMonoid(plus, zero)
    requires forall k :: k in m ==> pq(k) == q(p(k))
    ensures RollUp(RollUp(m, p, plus, zero), q, plus, zero) == RollUp(m, pq, plus, zero)
    decreases |m|
  {
    if m == map[] {
      assert RollUp(m, p, plus, zero) == map[];
      assert RollUp(m, pq, plus, zero) == map[];
    } else {
      var k :| k in m;
      var rest, x := m - {k}, m[k];
      RollUpTwice(rest, p, q, pq, plus, zero);
      assert Commutes(plus, zero, x) && Neutral(plus, x, zero);
      assert m == rest[k := plus(At(rest, k, zero), x)];
      RollUpAdd(rest, k, x, p, plus, zero);
      RollUpAdd(rest, k, x, pq, plus, zero);
      RollUpAdd(RollUp(rest, p, plus, zero), p(k), x, q, plus, zero);
    }
  }

  lemma PointwisePut<K, V>(a: map<K, V>, b: map<K, V>, k: K, x: V, plus: (V, V) -> V, zero: V)
    requires k !in b && plus(zero, x) == x
    ensures var r := Pointwise(a, b, plus); Pointwise(a, b[k := x], plus) == r[k := plus(At(r, k, zero), x)]
  {
  }

  /** The loop behind every dict merge: b's entries are added into a, one key at a time. */
  method MergeInto<K, V>(a: map<K, V>, b: map<K, V>, plus: (V, V) -> V, zero: V) returns (r: map<K, V>)
    requires forall k :: k in b ==> plus(zero, b[k]) == b[k]
    ensures r == Pointwise(a, b, plus)
  {
    r := a;
    var todo := b.Keys;
    while todo != {}
      invariant todo <= b.Keys
      invariant r == Pointwise(a, b - todo, plus)
    {
      var k :| k in todo;
      PointwisePut(a, b - todo, k, b[k], plus, zero);
      assert b - (todo - {k}) == (b - todo)[k := b[k]];
      r := r[k := plus(At(r, k, zero), b[k])];
      todo := todo - {k};
    }
    assert b - {} == b;
  }

  /** Adds x at each of the keys, creating those that are new. */
  method AddAtEach<K, V>(m: map<K, V>, keys: seq<K>, x: V, plus: (V, V) -> V, zero: V) returns (r: map<K, V>)
    requires forall i, j :: 0 <= i < j < |keys| ==> keys[i] != keys[j]
    requires plus(zero, x) == x
    ensures r == Pointwise(m, map k | k in keys :: x, plus)
  {
    r := m;
    ghost var added: map<K, V> := map[];
    for i := 0 to |keys|
      invariant forall k :: k in added <==> k in keys[..i]
      invariant forall k :: k in added ==> added[k] == x
      invariant r == Pointwise(m, added, plus)
    {
      assert keys[i] !in added;
      assert keys[..i+1] == keys[..i] + [keys[i]];
      PointwisePut(m, added, keys[i], x, plus, zero);
      added := added[keys[i] := x];
      r := r[keys[i] := plus(At(r, keys[i], zero), x)];
    }
    assert keys[..|keys|] == keys;
    assert added == map k | k in keys :: x;
  }

  method KeepWhere<K, V>(m: map<K, V>, p: K -> bool) returns (r: map<K, V>)
    ensures r == Where(m, p)
  {
    r := map[];
    var todo := m.Keys;
    while todo != {}
      invariant todo <= m.Keys
      invariant r == Where(m - todo, p)
    {
      var k :| k in todo;
      if p(k) {
        r := r[k := m[k]];
      }
      todo := todo - {k};
    }
    assert m - {} == m;
  }

  method KeepValues<K, V>(m: map<K, V>, p: V -> bool) returns (r: map<K, V>)
    ensures r == map k | k in m && p(m[k]) :: m[k]
  {
    r := map[];
    var todo := m.Keys;
    while todo != {}
      invariant todo <= m.Keys
      invariant r == map k | k in m && k !in todo && p(m[k]) :: m[k]
    {
      var k :| k in todo;
      if p(m[k]) {
        r := r[k := m[k]];
      }
      todo := todo - {k};
    }
  }

  lemma KeyOf<K, V>(m: map<K, V>) returns (k: K)
    requires m != map[]
    ensures k in m
  {
    k :| k in m;
  }

  method SomeKey<K, V>(m: map<K, V>) returns (k: K)
    requires m != map[]
    ensures k in m
  {
    k :| k in m;
  }
}
