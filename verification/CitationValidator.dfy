/** The validator as it runs: problems are collected in loops, then citations numbered in
    one pass. */
module CitationValidator {
  import opened Lists
  import opened Citations

  method CheckCitations(ctx: Context, cs: seq<Citation>, place: Place, errors: set<Problem>) returns (r: set<Problem>)
    ensures r == errors + Flagged(ctx, cs, place)
  {
    r := errors;
    for i := 0 to |cs|
      invariant r == errors + Flagged(ctx, cs[..i], place)
    {
      assert Front(cs[..i+1]) == cs[..i];
      if !Authorised(ctx, cs[i]) {
        r := r + {if cs[i].Evidence? then UnauthorisedEvidence(place) else UnauthorisedRunbook(place)};
      }
    }
    assert cs[..|cs|] == cs;
  }

  method CheckPoints(ctx: Context, ps: seq<Point>, mustCite: bool, errors: set<Problem>) returns (r: set<Problem>)
    ensures r == errors + PointProblems(ctx, ps, mustCite)
  {
    r := errors;
    for i := 0 to |ps|
      invariant r == errors + PointProblems(ctx, ps[..i], mustCite)
    {
      assert Front(ps[..i+1]) == ps[..i];
      r := CheckCitations(ctx, ps[i].citations, AtPoint, r);
      if mustCite && ps[i].citations == [] {
        r := r + {UncitedPoint};
      }
    }
    assert ps[..|ps|] == ps;
  }

  method CheckRecommendations(ctx: Context, cs: seq<Check>, errors: set<Problem>) returns (r: set<Problem>)
    ensures r == errors + CheckProblems(ctx, cs)
  {
    r := errors;
    for i := 0 to |cs|
      invariant r == errors + CheckProblems(ctx, cs[..i])
    {
      assert Front(cs[..i+1]) == cs[..i];
      if cs[i].citations == [] {
        r := r + {UncitedCheck};
      }
      r := CheckCitations(ctx, cs[i].citations, AtCheck, r);
    }
    assert cs[..|cs|] == cs;
  }

  /** The dict of numbers holds the keys seen so far, numbered in order. */
  ghost predicate NumbersAre(numbers: map<Citation, nat>, ks: seq<Citation>) {
    && (forall c :: c in numbers <==> c in ks)
    && (forall c :: c in numbers ==> numbers[c] == NumberOf(ks, c))
    && |numbers| == |ks|
  }

  lemma NumberSnoc(ks: seq<Citation>, c: Citation, c': Citation)
    requires c !in ks
    ensures NumberOf(ks + [c], c') == if c' == c then |ks| + 1 else NumberOf(ks, c')
  {
    assert Front(ks + [c]) == ks;
  }

  lemma OneMore(numbers: map<Citation, nat>, c: Citation, n: nat)
    requires c !in numbers
    ensures |numbers[c := n]| == |numbers| + 1
  {
    assert numbers[c := n].Keys == numbers.Keys + {c};
  }

  lemma NumberedNext(numbers: map<Citation, nat>, ks: seq<Citation>, c: Citation)
    requires NumbersAre(numbers, ks) && c !in ks
    ensures NumbersAre(numbers[c := |numbers| + 1], ks + [c])
  {
    var after := numbers[c := |numbers| + 1];
    OneMore(numbers, c, |numbers| + 1);
    forall c' | c' in after ensures after[c'] == NumberOf(ks + [c], c') {
      NumberSnoc(ks, c, c');
    }
  }

  lemma CardsNext(ctx: Context, ks: seq<Citation>, c: Citation)
    ensures Cards(ctx, ks + [c]) == Cards(ctx, ks) + [CardOf(ctx, c, |ks| + 1)]
  {
  }

  /** Numbers each citation at its first occurrence and makes its card. */
  method NumberCitations(ctx: Context, cs: seq<Citation>) returns (numbers: map<Citation, nat>, hydrated: seq<Card>)
    ensures NumbersAre(numbers, Keys(cs)) && hydrated == Cards(ctx, Keys(cs))
  {
    numbers, hydrated := map[], [];
    for i := 0 to |cs|
      invariant NumbersAre(numbers, Keys(cs[..i])) && hydrated == Cards(ctx, Keys(cs[..i]))
    {
      assert Front(cs[..i+1]) == cs[..i];
      if cs[i] !in numbers {
        NumberedNext(numbers, Keys(cs[..i]), cs[i]);
        CardsNext(ctx, Keys(cs[..i]), cs[i]);
        var number := |numbers| + 1;
        numbers := numbers[cs[i] := number];
        hydrated := hydrated + [CardOf(ctx, cs[i], number)];
      }
    }
    assert cs[..|cs|] == cs;
  }

  method Present(numbers: map<Citation, nat>, ghost ks: seq<Citation>, cs: seq<Citation>) returns (shown: seq<nat>)
    requires NumbersAre(numbers, ks) && forall c :: c in cs ==> c in ks
    ensures shown == Numbers(ks, cs)
  {
    shown := [];
    for i := 0 to |cs|
      invariant shown == Numbers(ks, cs[..i])
    {
      shown := shown + [numbers[cs[i]]];
    }
  }

  method PresentPoints(numbers: map<Citation, nat>, ghost ks: seq<Citation>,
                       ps: seq<Point>) returns (shown: seq<ShownPoint>)
    requires NumbersAre(numbers, ks) && forall i :: 0 <= i < |ps| ==> forall c :: c in ps[i].citations ==> c in ks
    ensures shown == ShowPoints(ks, ps)
  {
    shown := [];
    for i := 0 to |ps|
      invariant shown == ShowPoints(ks, ps[..i])
    {
      var shownNumbers := Present(numbers, ks, ps[i].citations);
      shown := shown + [ShownPoint(ps[i].text, shownNumbers)];
    }
  }

  method PresentChecks(numbers: map<Citation, nat>, ghost ks: seq<Citation>,
                       cs: seq<Check>) returns (shown: seq<ShownPoint>)
    requires NumbersAre(numbers, ks) && forall i :: 0 <= i < |cs| ==> forall c :: c in cs[i].citations ==> c in ks
    ensures shown == ShowChecks(ks, cs)
  {
    shown := [];
    for i := 0 to |cs|
      invariant shown == ShowChecks(ks, cs[..i])
    {
      var shownNumbers := Present(numbers, ks, cs[i].citations);
      shown := shown + [ShownPoint(cs[i].title, shownNumbers)];
    }
  }

  method Collect(ps: seq<Point>) returns (cs: seq<Citation>)
    ensures cs == Cited(ps)
    ensures forall i :: 0 <= i < |ps| ==> forall c :: c in ps[i].citations ==> c in cs
  {
    cs := [];
    for i := 0 to |ps|
      invariant cs == Cited(ps[..i])
      invariant forall j :: 0 <= j < i ==> forall c :: c in ps[j].citations ==> c in cs
    {
      assert Front(ps[..i+1]) == ps[..i];
      cs := cs + ps[i].citations;
    }
    assert ps[..|ps|] == ps;
  }

  method CollectChecks(checks: seq<Check>) returns (cs: seq<Citation>)
    ensures cs == CitedByChecks(checks)
    ensures forall i :: 0 <= i < |checks| ==> forall c :: c in checks[i].citations ==> c in cs
  {
    cs := [];
    for i := 0 to |checks|
      invariant cs == CitedByChecks(checks[..i])
      invariant forall j :: 0 <= j < i ==> forall c :: c in checks[j].citations ==> c in cs
    {
      assert Front(checks[..i+1]) == checks[..i];
      cs := cs + checks[i].citations;
    }
    assert checks[..|checks|] == checks;
  }

  /** Checks the draft, then builds the answer. */
  method ValidateDraft(d: Draft, ctx: Context, text: set<string>) returns (r: Outcome)
    ensures r == Validate(d, ctx, text)
  {
    if !SchemaOk(d) {
      return Invalid({Schema});
    }
    var errors := IdentityProblems(d, ctx);
    errors := CheckPoints(ctx, d.supporting, true, errors);
    errors := CheckPoints(ctx, d.contradictory, true, errors);
    errors := CheckPoints(ctx, d.unknown, false, errors);
    errors := CheckRecommendations(ctx, d.checks, errors);
    errors := errors + TextProblems(text);
    if errors != {} {
      return Invalid(errors);
    }
    var answer := BuildAnswer(d, ctx);
    r := if Buildable(answer) then Accepted(answer) else Unbuildable;
  }

  method BuildAnswer(d: Draft, ctx: Context) returns (a: Answer)
    ensures a == Build(d, ctx)
  {
    var supporting := Collect(d.supporting);
    var contradictory := Collect(d.contradictory);
    var unknown := Collect(d.unknown);
    var checks := CollectChecks(d.checks);
    var ordered := supporting + contradictory + unknown + checks;
    var numbers, hydrated := NumberCitations(ctx, ordered);
    ghost var ks := Keys(ordered);
    var shownSupporting := PresentPoints(numbers, ks, d.supporting);
    var shownContradictory := PresentPoints(numbers, ks, d.contradictory);
    var shownUnknown := PresentPoints(numbers, ks, d.unknown);
    var shownChecks := PresentChecks(numbers, ks, d.checks);
    a := Answer(shownSupporting, shownContradictory, shownUnknown, shownChecks, hydrated);
  }
}
