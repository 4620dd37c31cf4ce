/** The nearest-rank 95th percentile of the latency observations. */
module Percentile {
  import opened Options
  import opened Folds
  import Sorting

  predicate Sorted(xs: seq<real>) { forall i, j :: 0 <= i < j < |xs| ==> xs[i] <= xs[j] }

  predicate Above(x: real, y: real) { x > y }

  function Sort(xs: seq<real>): (r: seq<real>)
    ensures Sorted(r) && multiset(r) == multiset(xs)
    ensures |r| == |xs|
  {
    Sorting.SortInOrder(Above, xs);
    Sorting.SortKeeps(Above, xs);
    Sorting.Sort(Above, xs)
  }

  /** ceil(0.95 n), and at least one. */
  function Rank(n: nat): (r: nat)
    ensures 1 <= r && 19 * n <= 20 * r && (n > 0 ==> r <= n && 20 * (r - 1) < 19 * n)
  {
    var r := (19 * n + 19) / 20;
    if r < 1 then 1 else r
  }

  function P95(latencies: seq<real>): Option<real> {
    if latencies == [] then None else Some(Sort(latencies)[Rank(|latencies|) - 1])
  }

  function UpTo(p: real): real -> nat { x => if x <= p then 1 else 0 }
  function Under(p: real): real -> nat { x => if x < p then 1 else 0 }

  /** How many observations are at most p, and how many are below p. */
  function AtMost(xs: seq<real>, p: real): nat { SumOf(xs, UpTo(p), AddNat, 0) }
  function Below(xs: seq<real>, p: real): nat { SumOf(xs, Under(p), AddNat, 0) }

  /** p is observed, at least 95% of the observations are at most p, and fewer than 95%
      are below it. */
  predicate IsP95(xs: seq<real>, p: real) {
    p in xs && 20 * AtMost(xs, p) >= 19 * |xs| && 20 * Below(xs, p) < 19 * |xs|
  }

  lemma {:induction false} SortedCounts(xs: seq<real>, n: nat, k: nat)
    requires Sorted(xs) && n <= |xs| && k < |xs|
    ensures AtMost(xs[..n], xs[k]) >= if n <= k then n else k + 1
    ensures Below(xs[..n], xs[k]) <= if n <= k then n else k
  {
    if n > 0 {
      SortedCounts(xs, n - 1, k);
      assert xs[..n][..n-1] == xs[..n-1];
    }
  }

  lemma {:induction false} BelowLeast(xs: seq<real>, p: real, q: real)
    requires p < q
    ensures AtMost(xs, p) <= Below(xs, q)
  {
    if xs != [] {
      BelowLeast(xs[..|xs|-1], p, q);
    }
  }

  lemma CountsOrderFree(xs: seq<real>, ys: seq<real>, p: real)
    requires multiset(xs) == multiset(ys)
    ensures AtMost(xs, p) == AtMost(ys, p) && Below(xs, p) == Below(ys, p)
    ensures |xs| == |ys| && (p in xs <==> p in ys)
  {
    SumOrderFree(xs, ys, UpTo(p), AddNat, 0);
    SumOrderFree(xs, ys, Under(p), AddNat, 0);
    assert |multiset(xs)| == |xs| && |multiset(ys)| == |ys|;
    assert p in xs <==> p in multiset(xs);
    assert p in ys <==> p in multiset(ys);
  }

  lemma AtRankIsP95(xs: seq<real>, sorted: seq<real>, k: nat)
    requires Sorted(sorted) && multiset(sorted) == multiset(xs) && |sorted| == |xs|
    requires xs != [] && k == Rank(|xs|) - 1
    ensures IsP95(xs, sorted[k])
  {
    SortedCounts(sorted, |sorted|, k);
    assert sorted[..|sorted|] == sorted;
    CountsOrderFree(sorted, xs, sorted[k]);
  }

  lemma OnlyOneP95(xs: seq<real>, p: real, q: real)
    requires IsP95(xs, p) && IsP95(xs, q)
    ensures p == q
  {
    if p < q {
      BelowLeast(xs, p, q);
    } else if q < p {
      BelowLeast(xs, q, p);
    }
  }

  /** The reported value is the 95th percentile, and there is only one. */
  lemma P95Meaning(xs: seq<real>, p: real)
    ensures P95(xs) == Some(p) <==> IsP95(xs, p)
  {
    if xs != [] {
      AtRankIsP95(xs, Sort(xs), Rank(|xs|) - 1);
      if IsP95(xs, p) {
        OnlyOneP95(xs, p, Sort(xs)[Rank(|xs|) - 1]);
      }
    }
  }

  /** It depends on the observations only, not on the order they arrived in. */
  lemma P95OrderFree(xs: seq<real>, ys: seq<real>)
    requires multiset(xs) == multiset(ys)
    ensures P95(xs) == P95(ys)
  {
    assert |multiset(xs)| == |xs| && |multiset(ys)| == |ys|;
    if xs != [] {
      var p := P95(xs).value;
      P95Meaning(xs, p);
      CountsOrderFree(xs, ys, p);
      P95Meaning(ys, p);
    }
  }
}
