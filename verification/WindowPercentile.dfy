/** The p95 a window reports. */
module WindowPercentile {
  import opened Options
  import opened Config
  import opened Rollups
  import opened Aggregation
  import opened Percentile

  /** xs lists, in some order, the latencies a window holds in a slot. */
  ghost predicate Lists(xs: seq<real>, s: Settings, a: Aggregate, lo: int, hi: int, slot: Slot) {
    multiset(xs) == Get(Window(s.Bucket(), a.buckets, lo, hi), slot).latencies
  }

  /** The p95 of a window is that of the accepted events in it. */
  lemma WindowP95(s: Settings, es: seq<PaymentEvent>, lo: int, hi: int, slot: Slot, xs: seq<real>, p: real)
    requires Lists(xs, s, Run(s, es), lo, hi, slot)
    ensures var observed := LatenciesIn(Covered(s.Bucket(), Log(s, es), lo, hi), slot);
      P95(xs) == Some(p) <==> IsP95(observed, p)
  {
    var covered := Covered(s.Bucket(), Log(s, es), lo, hi);
    WindowIsRecount(s, es, lo, hi);
    RecountLatencies(covered, slot);
    P95OrderFree(xs, LatenciesIn(covered, slot));
    P95Meaning(LatenciesIn(covered, slot), p);
  }

  /** Bounded disorder does not change it, in whatever order the latencies are kept. */
  lemma DisorderKeepsP95(s: Settings, es: seq<PaymentEvent>, fs: seq<PaymentEvent>, lo: int, hi: int,
                         slot: Slot, xs: seq<real>, ys: seq<real>)
    requires multiset(es) == multiset(fs)
    requires BoundedDisorder(s, es) && BoundedDisorder(s, fs)
    requires Lists(xs, s, Run(s, es), lo, hi, slot) && Lists(ys, s, Run(s, fs), lo, hi, slot)
    ensures P95(xs) == P95(ys)
  {
    DisorderLosesNothing(s, es, fs, lo, hi);
    P95OrderFree(xs, ys);
  }
}
