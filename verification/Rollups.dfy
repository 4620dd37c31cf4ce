/** Counters, and the rollups of them a bucket or a window holds. */
module Rollups {
  import opened Folds

  datatype Outcome = Approved | BusinessDecline | TechnicalError

  datatype PaymentEvent = PaymentEvent(
    id: string,
    at: int,
    outcome: Outcome,
    code: string,
    latency: real,
    region: string,
    paymentMethod: string,
    version: string)

  datatype Counter = Counter(
    attempts: nat,
    approved: nat,
    declined: nat,
    errors: nat,
    codes: map<string, nat>,
    latencies: multiset<real>)

  const ZERO := Counter(0, 0, 0, 0, map[], multiset{})

  function AddCodes(a: map<string, nat>, b: map<string, nat>): map<string, nat> { Pointwise(a, b, AddNat) }

  function Plus(a: Counter, b: Counter): Counter {
    Counter(a.attempts + b.attempts, a.approved + b.approved, a.declined + b.declined, a.errors + b.errors,
            AddCodes(a.codes, b.codes), a.latencies + b.latencies)
  }

  /** What one event adds to a counter. */
  function One(e: PaymentEvent): Counter {
    Counter(1,
            if e.outcome.Approved? then 1 else 0,
            if e.outcome.BusinessDecline? then 1 else 0,
            if e.outcome.TechnicalError? then 1 else 0,
            if e.outcome.TechnicalError? then map[e.code := 1] else map[],
            multiset{e.latency})
  }

  datatype Dimension = Region | Method | Version

  function Value(d: Dimension, e: PaymentEvent): string {
    match d
    case Region => e.region
    case Method => e.paymentMethod
    case Version => e.version
  }

  /** Where a counter sits in a bucket: the overall one, one for each value of each
      dimension, one for each observed combination. */
  datatype Slot =
    | Overall
    | Single(dimension: Dimension, value: string)
    | Combination(region: string, paymentMethod: string, version: string)

  type Rollup = map<Slot, Counter>

  function SlotsOf(e: PaymentEvent): seq<Slot> {
    [Overall, Single(Region, e.region), Single(Method, e.paymentMethod), Single(Version, e.version),
     Combination(e.region, e.paymentMethod, e.version)]
  }

  /** Whether e is counted in slot s. */
  predicate Counts(s: Slot, e: PaymentEvent) {
    match s
    case Overall => true
    case Single(d, v) => Value(d, e) == v
    case Combination(r, m, v) => e.region == r && e.paymentMethod == m && e.version == v
  }

  function Get(r: Rollup, s: Slot): Counter { At(r, s, ZERO) }

  function Merge(a: Rollup, b: Rollup): Rollup { Pointwise(a, b, Plus) }

  function OneRollup(e: PaymentEvent): Rollup {
    map s | s in SlotsOf(e) :: One(e)
  }

  /** The naive recount: the events one after the other, each into its slots. */
  function Recount(es: seq<PaymentEvent>): Rollup {
    SumOf(es, OneRollup, Merge, map[])
  }

  lemma CodesMonoid()
    ensures CommutativeMonoid(AddNat, 0)
    ensures CommutativeMonoid(AddCodes, map[])
  {
    assert CommutativeMonoid(AddNat, 0);
    PointwiseMonoid(AddNat, 0, AddCodes);
  }

  lemma PlusMonoid()
    ensures CommutativeMonoid(Plus, ZERO)
  {
    CodesMonoid();
    forall a, b ensures Commutes(Plus, a, b) {
      assert Commutes(AddCodes, a.codes, b.codes);
    }
    forall a, b, c ensures Associates(Plus, a, b, c) {
      assert Associates(AddCodes, a.codes, b.codes, c.codes);
      assert (a.latencies + b.latencies) + c.latencies == a.latencies + (b.latencies + c.latencies);
    }
    forall a ensures Neutral(Plus, a, ZERO) {
      assert Neutral(AddCodes, a.codes, map[]);
    }
  }

  lemma MergeMonoid()
    ensures CommutativeMonoid(Merge, map[])
  {
    PlusMonoid();
    PointwiseMonoid(Plus, ZERO, Merge);
  }

  lemma PlusUnit(a: Counter)
    ensures Plus(a, ZERO) == a && Plus(ZERO, a) == a
  {
    assert AddCodes(a.codes, map[]) == a.codes && AddCodes(map[], a.codes) == a.codes;
  }

  lemma GetMerge(a: Rollup, b: Rollup, s: Slot)
    ensures Get(Merge(a, b), s) == Plus(Get(a, s), Get(b, s))
  {
    PlusUnit(Get(a, s));
    PlusUnit(Get(b, s));
    PointwiseAt(a, b, s, Plus, ZERO);
  }

  lemma SlotsAreCounts(e: PaymentEvent, s: Slot)
    ensures s in SlotsOf(e) <==> Counts(s, e)
  {
    match s
    case Overall => assert SlotsOf(e)[0] == s;
    case Single(d, v) =>
      match d {
        case Region => assert SlotsOf(e)[1] == Single(Region, e.region);
        case Method => assert SlotsOf(e)[2] == Single(Method, e.paymentMethod);
        case Version => assert SlotsOf(e)[3] == Single(Version, e.version);
      }
    case Combination(r, m, v) => assert SlotsOf(e)[4] == Combination(e.region, e.paymentMethod, e.version);
  }

  lemma GetSnoc(es: seq<PaymentEvent>, e: PaymentEvent, s: Slot)
    ensures Get(Recount(es + [e]), s) == if Counts(s, e) then Plus(Get(Recount(es), s), One(e)) else Get(Recount(es), s)
    ensures s in Recount(es + [e]) <==> s in Recount(es) || Counts(s, e)
  {
    assert (es + [e])[..|es|] == es;
    SlotsAreCounts(e, s);
    GetMerge(Recount(es), OneRollup(e), s);
    PlusUnit(Get(Recount(es), s));
  }

  /** How many of es satisfy p. */
  function CountIf(es: seq<PaymentEvent>, p: PaymentEvent -> bool): nat {
    if es == [] then 0 else CountIf(es[..|es|-1], p) + if p(es[|es|-1]) then 1 else 0
  }

  lemma {:induction false} SameCount(es: seq<PaymentEvent>, p: PaymentEvent -> bool, q: PaymentEvent -> bool)
    requires forall e :: p(e) == q(e)
    ensures CountIf(es, p) == CountIf(es, q)
  {
    if es != [] {
      SameCount(es[..|es|-1], p, q);
    }
  }

  /** after is before with e counted: in the slots e falls in, and nowhere else. */
  ghost predicate Extends(before: Rollup, e: PaymentEvent, after: Rollup) {
    forall s :: ExtendsAt(before, e, after, s)
  }

  ghost predicate ExtendsAt(before: Rollup, e: PaymentEvent, after: Rollup, s: Slot) {
    && (s in after <==> s in before || Counts(s, e))
    && Get(after, s) == if Counts(s, e) then Plus(Get(before, s), One(e)) else Get(before, s)
  }

  lemma RecountExtends(es: seq<PaymentEvent>)
    requires es != []
    ensures Extends(Recount(es[..|es|-1]), es[|es|-1], Recount(es))
  {
    var prev, e := es[..|es|-1], es[|es|-1];
    assert es == prev + [e];
    forall s ensures ExtendsAt(Recount(prev), e, Recount(es), s) {
      GetSnoc(prev, e, s);
    }
  }

  /** The latencies of the events in slot s, as they came. */
  function LatenciesIn(es: seq<PaymentEvent>, s: Slot): seq<real> {
    if es == [] then []
    else
      var e := es[|es|-1];
      LatenciesIn(es[..|es|-1], s) + if Counts(s, e) then [e.latency] else []
  }

  predicate HasCode(s: Slot, code: string, e: PaymentEvent) {
    Counts(s, e) && e.outcome.TechnicalError? && e.code == code
  }

  lemma CountsSnoc(es: seq<PaymentEvent>, e: PaymentEvent, s: Slot, code: string)
    ensures var was, now := Get(Recount(es), s), Get(Recount(es + [e]), s);
      && now.attempts == was.attempts + (if Counts(s, e) then 1 else 0)
      && now.approved == was.approved + (if Counts(s, e) && e.outcome.Approved? then 1 else 0)
      && now.declined == was.declined + (if Counts(s, e) && e.outcome.BusinessDecline? then 1 else 0)
      && now.errors == was.errors + (if Counts(s, e) && e.outcome.TechnicalError? then 1 else 0)
      && At(now.codes, code, 0) == At(was.codes, code, 0) + (if HasCode(s, code, e) then 1 else 0)
      && (code in now.codes <==> code in was.codes || HasCode(s, code, e))
      && now.latencies == was.latencies + (if Counts(s, e) then multiset{e.latency} else multiset{})
  {
    GetSnoc(es, e, s);
  }

  function InSlot(s: Slot): PaymentEvent -> bool { e => Counts(s, e) }
  function ApprovedIn(s: Slot): PaymentEvent -> bool { e => Counts(s, e) && e.outcome.Approved? }
  function DeclinedIn(s: Slot): PaymentEvent -> bool { e => Counts(s, e) && e.outcome.BusinessDecline? }
  function FailedIn(s: Slot): PaymentEvent -> bool { e => Counts(s, e) && e.outcome.TechnicalError? }
  function WithCode(s: Slot, code: string): PaymentEvent -> bool { e => HasCode(s, code, e) }

  lemma {:induction false} RecountAttempts(es: seq<PaymentEvent>, s: Slot)
    ensures Get(Recount(es), s).attempts == CountIf(es, InSlot(s))
  {
    if es != [] {
      RecountAttempts(es[..|es|-1], s);
      CountsSnoc(es[..|es|-1], es[|es|-1], s, "");
      assert es == es[..|es|-1] + [es[|es|-1]];
    }
  }

  lemma {:induction false} RecountApproved(es: seq<PaymentEvent>, s: Slot)
    ensures Get(Recount(es), s).approved == CountIf(es, ApprovedIn(s))
  {
    if es != [] {
      RecountApproved(es[..|es|-1], s);
      CountsSnoc(es[..|es|-1], es[|es|-1], s, "");
      assert es == es[..|es|-1] + [es[|es|-1]];
    }
  }

  lemma {:induction false} RecountDeclined(es: seq<PaymentEvent>, s: Slot)
    ensures Get(Recount(es), s).declined == CountIf(es, DeclinedIn(s))
  {
    if es != [] {
      RecountDeclined(es[..|es|-1], s);
      CountsSnoc(es[..|es|-1], es[|es|-1], s, "");
      assert es == es[..|es|-1] + [es[|es|-1]];
    }
  }

  lemma {:induction false} RecountErrors(es: seq<PaymentEvent>, s: Slot)
    ensures Get(Recount(es), s).errors == CountIf(es, FailedIn(s))
  {
    if es != [] {
      RecountErrors(es[..|es|-1], s);
      CountsSnoc(es[..|es|-1], es[|es|-1], s, "");
      assert es == es[..|es|-1] + [es[|es|-1]];
    }
  }

  /** The recount means what it says: each number is a count of events, ... */
  lemma RecountCounts(es: seq<PaymentEvent>, s: Slot)
    ensures Get(Recount(es), s).attempts == CountIf(es, InSlot(s))
    ensures Get(Recount(es), s).approved == CountIf(es, ApprovedIn(s))
    ensures Get(Recount(es), s).declined == CountIf(es, DeclinedIn(s))
    ensures Get(Recount(es), s).errors == CountIf(es, FailedIn(s))
  {
    RecountAttempts(es, s);
    RecountApproved(es, s);
    RecountDeclined(es, s);
    RecountErrors(es, s);
  }

  lemma CodeSnoc(es: seq<PaymentEvent>, e: PaymentEvent, s: Slot, code: string)
    ensures var was, now := Get(Recount(es), s).codes, Get(Recount(es + [e]), s).codes;
      && At(now, code, 0) == At(was, code, 0) + (if HasCode(s, code, e) then 1 else 0)
      && (code in now <==> code in was || HasCode(s, code, e))
  {
    CountsSnoc(es, e, s, code);
  }

  /** ... an error code is listed exactly when some event has it, with their number, ... */
  lemma {:induction false} RecountCodes(es: seq<PaymentEvent>, s: Slot, code: string)
    ensures At(Get(Recount(es), s).codes, code, 0) == CountIf(es, WithCode(s, code))
    ensures code in Get(Recount(es), s).codes <==> CountIf(es, WithCode(s, code)) > 0
  {
    if es != [] {
      var prev, e := es[..|es|-1], es[|es|-1];
      RecountCodes(prev, s, code);
      CodeSnoc(prev, e, s, code);
      assert es == prev + [e];
    }
  }

  lemma LatencySnoc(es: seq<PaymentEvent>, e: PaymentEvent, s: Slot)
    ensures Get(Recount(es + [e]), s).latencies == Get(Recount(es), s).latencies + LatencyIn(e, s)
    ensures multiset(LatenciesIn(es + [e], s)) == multiset(LatenciesIn(es, s)) + LatencyIn(e, s)
  {
    CountsSnoc(es, e, s, "");
    assert (es + [e])[..|es|] == es;
  }

  function LatencyIn(e: PaymentEvent, s: Slot): multiset<real> {
    if Counts(s, e) then multiset{e.latency} else multiset{}
  }

  /** ... and the latencies are those of the events. */
  lemma {:induction false} RecountLatencies(es: seq<PaymentEvent>, s: Slot)
    ensures Get(Recount(es), s).latencies == multiset(LatenciesIn(es, s))
  {
    if es != [] {
      var prev, e := es[..|es|-1], es[|es|-1];
      assert es == prev + [e];
      RecountLatencies(prev, s);
      LatencySnoc(prev, e, s);
    }
  }

  /** A slot exists exactly when some event falls in it. */
  lemma {:induction false} RecountSlots(es: seq<PaymentEvent>, s: Slot)
    ensures s in Recount(es) <==> exists e :: e in es && Counts(s, e)
  {
    if es != [] {
      var prev, e := es[..|es|-1], es[|es|-1];
      RecountSlots(prev, s);
      assert es == prev + [e];
      GetSnoc(prev, e, s);
    }
  }

  /** The recount does not depend on the order of the events. */
  lemma RecountOrderFree(es: seq<PaymentEvent>, fs: seq<PaymentEvent>)
    requires multiset(es) == multiset(fs)
    ensures Recount(es) == Recount(fs)
  {
    MergeMonoid();
    SumOrderFree(es, fs, OneRollup, Merge, map[]);
  }
}
