/** Which overlap of a property and a variant loses a value under the nullable form. */
module SchemaOverlap {
  import opened Options
  import opened Json
  import opened StrictSchema
  import opened SchemaMeaning
  import opened SchemaExact
  import opened SchemaNullable

  function Only(a: string): Json { Arr(Item(Str(a), Nil)) }

  /** A variant in which the member a is required and meets t. */
  function Needs(a: string, t: Json): Fields {
    Field("properties", Obj(Field(a, t, Empty)), Field("required", Only(a), Empty))
  }

  /** A schema in which a is optional and meets s, and the only variant looks at a too. */
  function Overlap(a: string, s: Fields, t: Json): Fields {
    Field("properties", Obj(Field(a, Obj(s), Empty)), Field("anyOf", Arr(Item(Obj(Needs(a, t)), Nil)), Empty))
  }

  function ClosedEnd(a: string): Fields { Field("required", Only(a),
                                                Field("additionalProperties", Bool(false), Empty)) }

  function StrictNeeds(a: string, t: Json): Fields { Field("properties", Obj(Field(a, t, Empty)), ClosedEnd(a)) }

  function WalkedOverlap(a: string, n: Json, t: Json, end: Fields): Fields {
    Field("properties", Obj(Field(a, n, Empty)), Field("anyOf", Arr(Item(Obj(StrictNeeds(a, t)), Nil)), end))
  }

  function NullAt(a: string): Fields { Field(a, Null, Empty) }

  /** Closing puts the two keywords in place or at the end. */
  lemma CloseOverlap(fs: Fields, a: string, x: Json)
    requires fs.Field? && fs.key == "properties" && fs.value == Obj(Field(a, x, Empty))
    requires fs.rest.Field? && fs.rest.rest.Empty? && fs.rest.key in {"required", "anyOf"}
    ensures Close(fs) == Field("properties", fs.value,
      if fs.rest.key == "required" then ClosedEnd(a) else Field("anyOf", fs.rest.value, ClosedEnd(a)))
  {
    assert Names(fs.value.fields) == Item(Str(a), Nil);
    assert PropertiesOf(fs) == fs.value.fields;
    var put := Put(fs, "required", Only(a));
    assert Put(fs.rest, "required", Only(a)) ==
      if fs.rest.key == "required" then Field("required", Only(a), Empty)
      else Field("anyOf", fs.rest.value, Field("required", Only(a), Empty));
    assert put == Field("properties", fs.value, Put(fs.rest, "required", Only(a)));
    var required := Field("required", Only(a), Empty);
    var end := Put(put.rest, "additionalProperties", Bool(false));
    assert Put(required, "additionalProperties", Bool(false)) == ClosedEnd(a) by {
      assert Put(Empty, "additionalProperties", Bool(false)) == Field("additionalProperties", Bool(false), Empty);
    }
    assert fs.rest.key == "anyOf" ==>
      end == Field("anyOf", fs.rest.value, Put(required, "additionalProperties", Bool(false)));
    assert end == if fs.rest.key == "required" then ClosedEnd(a) else Field("anyOf", fs.rest.value, ClosedEnd(a));
    assert Get(ClosedEnd(a), "type") == None by {
      assert Get(ClosedEnd(a).rest, "type") == Get(Empty, "type");
    }
    var closed := Field("properties", fs.value, end);
    assert Put(put, "additionalProperties", Bool(false)) == closed;
    assert Get(end, "type") == None;
  }

  lemma NeedsNormed(a: string, t: Json)
    requires Dicts(t) && Strict(t)
    ensures Norm(Obj(Needs(a, t)), true) == Obj(StrictNeeds(a, t))
  {
    StrictIsFixed(t, true);
    var fs := Needs(a, t);
    var required := Some(Only(a));
    assert Get(fs.rest, "required") == required == Get(fs, "required") && InRequired(required, a);
    assert NormProperties(fs.value.fields, required, true) == fs.value.fields;
    assert NormFields(fs.rest.rest, required, true) == Empty;
    assert NormFields(fs.rest, required, true) == fs.rest;
    assert NormValue("properties", fs.value, required, true) == fs.value;
    assert NormFields(fs, required, true) == fs;
    CloseOverlap(fs, a, t);
  }

  lemma OverlapNormed(a: string, s: Fields, t: Json)
    requires Dicts(Obj(s)) && Strict(Obj(s)) && Dicts(t) && Strict(t)
    ensures Norm(Obj(Overlap(a, s, t)), true) == Obj(WalkedOverlap(a, MakeNullable(s), t, ClosedEnd(a)))
  {
    StrictIsFixed(Obj(s), true);
    NeedsNormed(a, t);
    var fs, walked := Overlap(a, s, t), WalkedOverlap(a, MakeNullable(s), t, Empty);
    assert Get(fs.rest.rest, "required") == None == Get(fs.rest, "required") == Get(fs, "required");
    assert NormProperties(Field(a, Obj(s), Empty), None, true) == Field(a, MakeNullable(s), Empty);
    assert NormItems(Item(Obj(Needs(a, t)), Nil), true) == Item(Obj(StrictNeeds(a, t)), Nil);
    assert NormFields(fs.rest.rest, None, true) == Empty;
    var variants := Arr(Item(Obj(Needs(a, t)), Nil));
    assert Norm(variants, true) == Arr(Item(Obj(StrictNeeds(a, t)), Nil));
    assert NormValue("anyOf", variants, None, true) == Norm(variants, true);
    assert NormFields(fs.rest, None, true) == walked.rest;
    assert NormValue("properties", fs.value, None, true) == walked.value;
    assert NormFields(fs, None, true) == walked;
    CloseOverlap(walked, a, MakeNullable(s));
  }

  lemma NullPropertyIff(a: string, x: Json, other: Other)
    ensures PropertiesOk(Field(a, x, Empty), NullAt(a), other) <==> Accepts(x, Null, other)
    ensures PropertiesOk(Field(a, x, Empty), Empty, other)
  {
    assert NamedOk(a, x, Empty, other);
    assert NamedOk(a, x, NullAt(a), other) <==> Accepts(x, Null, other);
  }

  lemma EndOk(a: string, x: Json, other: Other)
    ensures Each(ClosedEnd(a), Field(a, x, Empty), Obj(NullAt(a)), other)
  {
    var ps, v := Field(a, x, Empty), Obj(NullAt(a));
    assert RequiredOk(Only(a).items, NullAt(a));
    assert Keyword("required", Only(a), ps, v, other);
    assert RestOk(Bool(false), ps, NullAt(a), other);
    assert Keyword("additionalProperties", Bool(false), ps, v, other);
  }

  lemma StrictAcceptsIff(a: string, s: Fields, t: Json, other: Other)
    requires Dicts(Obj(s)) && Strict(Obj(s)) && Dicts(t) && Strict(t)
    ensures Accepts(Norm(Obj(Overlap(a, s, t)), true), Obj(NullAt(a)), other) <==>
      Accepts(t, Null, other) && (!AllowsNull(s) || Accepts(Obj(s), Null, other))
  {
    var n, v := MakeNullable(s), Obj(NullAt(a));
    var gs := WalkedOverlap(a, n, t, ClosedEnd(a));
    var ps := Field(a, n, Empty);
    OverlapNormed(a, s, t);
    NullableReads(s, Null, other);
    NullPropertyIff(a, n, other);
    EndOk(a, n, other);
    StrictNeedsIff(a, t, other);
    assert PropertiesOf(gs) == ps;
    var variants := Item(Obj(StrictNeeds(a, t)), Nil);
    assert SomeAccepts(variants, v, other) <==> Accepts(t, Null, other);
    assert Keyword("anyOf", Arr(variants), ps, v, other) <==> Accepts(t, Null, other);
    assert Each(gs.rest, ps, v, other) <==> Accepts(t, Null, other);
    assert Keyword("properties", Obj(ps), ps, v, other) <==> Accepts(n, Null, other);
    assert Each(gs, ps, v, other) <==> Accepts(n, Null, other) && Accepts(t, Null, other);
    assert Accepts(Obj(gs), v, other) <==> Each(gs, ps, v, other);
  }

  lemma StrictNeedsIff(a: string, t: Json, other: Other)
    ensures Accepts(Obj(StrictNeeds(a, t)), Obj(NullAt(a)), other) <==> Accepts(t, Null, other)
  {
    NullPropertyIff(a, t, other);
    EndOk(a, t, other);
    var gs, ps, v := StrictNeeds(a, t), Field(a, t, Empty), Obj(NullAt(a));
    assert PropertiesOf(gs) == ps;
    assert Keyword("properties", Obj(ps), ps, v, other) <==> Accepts(t, Null, other);
    assert Each(gs, ps, v, other) <==> Accepts(t, Null, other);
    assert Accepts(Obj(gs), v, other) <==> Each(gs, ps, v, other);
  }

  /** Of the two ways to drop, leaving a out never helps, for the variant wants it. */
  lemma OverlapAcceptsIff(a: string, s: Fields, t: Json, w: Json, other: Other)
    requires Drops(Obj(NullAt(a)), w)
    ensures Accepts(Obj(Overlap(a, s, t)), w, other) <==>
      w == Obj(NullAt(a)) && Accepts(Obj(s), Null, other) && Accepts(t, Null, other)
  {
    var fs, ps := Overlap(a, s, t), Field(a, Obj(s), Empty);
    DropsOfNull(a, w);
    NullPropertyIff(a, Obj(s), other);
    NeedsAcceptsIff(a, t, w, other);
    assert PropertiesOf(fs) == ps;
    var variants := Item(Obj(Needs(a, t)), Nil);
    assert SomeAccepts(variants, w, other) <==> Accepts(Obj(Needs(a, t)), w, other);
    assert Keyword("anyOf", Arr(variants), ps, w, other) <==> SomeAccepts(variants, w, other);
    assert Each(fs.rest, ps, w, other) <==> SomeAccepts(variants, w, other);
    assert Keyword("properties", Obj(ps), ps, w, other) <==> PropertiesOk(ps, w.fields, other);
    assert Each(fs, ps, w, other) <==> PropertiesOk(ps, w.fields, other) && SomeAccepts(variants, w, other);
    assert Accepts(Obj(fs), w, other) <==> Each(fs, ps, w, other);
  }

  lemma DropsOfNull(a: string, w: Json)
    requires Drops(Obj(NullAt(a)), w)
    ensures w == Obj(Empty) || w == Obj(NullAt(a))
  {
    var ns := w.fields;
    assert MembersDrop(NullAt(a), ns);
    if ns.Field? {
      assert !MembersDrop(Empty, ns);
      assert MembersDrop(Empty, ns.rest) && Drops(Null, ns.value);
    }
  }

  lemma NeedsAcceptsIff(a: string, t: Json, w: Json, other: Other)
    requires w == Obj(Empty) || w == Obj(NullAt(a))
    ensures Accepts(Obj(Needs(a, t)), w, other) <==> w == Obj(NullAt(a)) && Accepts(t, Null, other)
  {
    var fs, ps := Needs(a, t), Field(a, t, Empty);
    NullPropertyIff(a, t, other);
    assert PropertiesOf(fs) == ps;
    assert RequiredOk(Only(a).items, w.fields) <==> w == Obj(NullAt(a)) by {
      assert RequiredOk(Nil, w.fields);
      assert Has(w.fields, a) <==> w == Obj(NullAt(a));
    }
    assert Keyword("required", Only(a), ps, w, other) <==> w == Obj(NullAt(a));
    assert Each(fs.rest, ps, w, other) <==> w == Obj(NullAt(a));
    assert Keyword("properties", Obj(ps), ps, w, other) <==> PropertiesOk(ps, w.fields, other);
    assert Each(fs, ps, w, other) <==> PropertiesOk(ps, w.fields, other) && w == Obj(NullAt(a));
    assert Accepts(Obj(fs), w, other) <==> Each(fs, ps, w, other);
  }

  /** A null member that the strict form accepts cannot be restored exactly when the variant
      takes the null and the property neither takes it nor is marked as nullable. */
  lemma OverlapLosesIff(a: string, s: Fields, t: Json, other: Other)
    requires Dicts(Obj(s)) && Strict(Obj(s)) && Dicts(t) && Strict(t)
    ensures Loses(Obj(Overlap(a, s, t)), Obj(NullAt(a)), other) <==>
      Accepts(t, Null, other) && !Accepts(Obj(s), Null, other) && !AllowsNull(s)
  {
    var v, schema := Obj(NullAt(a)), Obj(Overlap(a, s, t));
    StrictAcceptsIff(a, s, t, other);
    DropsNothing(v);
    OverlapAcceptsIff(a, s, t, v, other);
    forall w | Drops(v, w)
      ensures Accepts(schema, w, other) ==> Accepts(Obj(s), Null, other) && Accepts(t, Null, other)
    {
      OverlapAcceptsIff(a, s, t, w, other);
    }
  }

  /** The strict form accepts v, and the schema nothing that v may be restored to. */
  ghost predicate Loses(schema: Json, v: Json, other: Other) {
    Accepts(Norm(schema, true), v, other) && forall w :: Drops(v, w) ==> !Accepts(schema, w, other)
  }

  // ---- why variants have to stand apart ---------------------------------------

  lemma OverlapIsPlain(a: string, s: Fields, t: Json)
    requires Dicts(Obj(s)) && Plain(Obj(s)) && Dicts(t) && Plain(t)
    ensures Dicts(Obj(Overlap(a, s, t))) && Plain(Obj(Overlap(a, s, t))) && !Apart(Obj(Overlap(a, s, t)))
  {
    var fs, variant := Overlap(a, s, t), Needs(a, t);
    assert PlainProperties(Field(a, t, Empty)) && PlainProperties(Field(a, Obj(s), Empty));
    assert Get(variant.rest, "required") == Some(Only(a)) == Get(variant, "required");
    assert PropertiesOf(variant) == Field(a, t, Empty);
    assert AllNamed(Only(a).items, Field(a, t, Empty)) by {
      assert AllNamed(Nil, Field(a, t, Empty));
    }
    assert AllNames(Only(a).items);
    assert PlainFields(Empty) && PlainFields(variant.rest);
    assert PlainKeyword("properties", variant.value) && PlainFields(variant);
    assert RequiredNamed(variant);
    assert Plain(Obj(variant));
    assert PlainVariants(Item(Obj(variant), Nil));
    assert PlainKeyword("anyOf", fs.rest.value) && PlainFields(fs.rest);
    assert PlainKeyword("properties", fs.value) && PlainFields(fs);
    assert Get(fs.rest.rest, "required") == None == Get(fs.rest, "required") == Get(fs, "required");
    assert Has(fs.rest, "anyOf") && Has(fs, "anyOf") && Has(fs, "properties");
    OverlapIsDict(a, s, t);
  }

  lemma OverlapIsDict(a: string, s: Fields, t: Json)
    requires Dicts(Obj(s)) && Dicts(t)
    ensures Dicts(Obj(Overlap(a, s, t)))
  {
    var fs, variant := Overlap(a, s, t), Needs(a, t);
    assert FieldsDicts(Field(a, t, Empty)) && FieldsDicts(Field(a, Obj(s), Empty));
    assert Dicts(Obj(Field(a, t, Empty))) && Dicts(Obj(Field(a, Obj(s), Empty)));
    assert ItemsDicts(Only(a).items);
    assert Get(variant.rest.rest, "properties") == None == Get(variant.rest, "properties");
    assert Keyed(variant.rest.rest) && Keyed(variant.rest);
    assert FieldsDicts(variant.rest) && FieldsDicts(variant) && Keyed(variant);
    assert ItemsDicts(Item(Obj(variant), Nil));
    assert Get(fs.rest.rest, "properties") == None == Get(fs.rest, "properties");
    assert Keyed(fs.rest.rest) && Keyed(fs.rest);
    assert FieldsDicts(fs.rest) && FieldsDicts(fs) && Keyed(fs);
  }

  const INTEGER_TYPE := Field("type", Str("integer"), Empty)

  /** The condition on variants is needed: with an optional integer and a variant that wants
      a null in its place, the strict form accepts a null that nothing restores. */
  lemma VariantsMustStandApart(a: string, other: Other)
    ensures var schema := Obj(Overlap(a, INTEGER_TYPE, NULL_TYPE));
      Dicts(schema) && Plain(schema) && !Apart(schema) && Loses(schema, Obj(NullAt(a)), other)
  {
    var nothing := Field("type", Str("null"), Empty);
    assert Keyword("type", Str("null"), PropertiesOf(nothing), Null, other);
    assert Accepts(NULL_TYPE, Null, other);
    assert !Keyword("type", Str("integer"), PropertiesOf(INTEGER_TYPE), Null, other);
    assert !Accepts(Obj(INTEGER_TYPE), Null, other);
    OverlapIsPlain(a, INTEGER_TYPE, NULL_TYPE);
    OverlapLosesIff(a, INTEGER_TYPE, NULL_TYPE, other);
  }
}
