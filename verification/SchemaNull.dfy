/** Null in the nullable form: which schemas are left as they are, and what optional
    properties let through. */
module SchemaNull {
  import opened Options
  import opened Json
  import opened StrictSchema
  import opened SchemaMeaning
  import opened SchemaExact

  /** Keywords that null meets whatever they say. */
  predicate Structural(k: string) {
    k in {"default", "properties", "required", "additionalProperties", "items"}
  }

  /** Whether null is let through is decided by the type or else by the variants, of which
      each is of this kind too; no other keyword refuses null. */
  ghost predicate Decided(s: Json, other: Other)
    decreases s, 0
  {
    && s.Obj? && (Has(s.fields, "type") <==> !Has(s.fields, "anyOf"))
    && OthersTakeNull(s.fields, other) && VariantsDecided(s.fields, other)
  }

  ghost predicate OthersTakeNull(fs: Fields, other: Other) {
    forall k :: Has(fs, k) && !Structural(k) && k != "type" && k != "anyOf" ==> other(k, Get(fs, k).value, Null)
  }

  ghost predicate VariantsDecided(fs: Fields, other: Other)
    decreases fs, 0
  {
    fs.Field? ==>
      (fs.key == "anyOf" ==> fs.value.Arr? && AllDecided(fs.value.items, other)) && VariantsDecided(fs.rest, other)
  }

  ghost predicate AllDecided(variants: Items, other: Other)
    decreases variants
  {
    variants.Item? ==> Decided(variants.head, other) && AllDecided(variants.tail, other)
  }

  // ---- marked as nullable, and lets null through ----------------------------------

  lemma {:induction false} SomeTypeIsNull(ts: Items)
    ensures IsSomeType(ts, Null) <==> Contains(ts, Str("null"))
  {
    if ts.Item? {
      SomeTypeIsNull(ts.tail);
    }
  }

  lemma TypeNullIff(fs: Fields)
    ensures Has(fs, "type") ==> (TypeOk(Get(fs, "type").value, Null) <==> TypeAllowsNull(fs))
  {
    if Has(fs, "type") && Get(fs, "type").value.Arr? {
      SomeTypeIsNull(Get(fs, "type").value.items);
    }
  }

  lemma {:induction false} VariantsAt(fs: Fields, other: Other)
    requires VariantsDecided(fs, other) && Has(fs, "anyOf")
    ensures Get(fs, "anyOf").value.Arr? && AllDecided(Get(fs, "anyOf").value.items, other)
  {
    if fs.key != "anyOf" {
      VariantsAt(fs.rest, other);
    }
  }

  lemma KeywordTakesNull(fs: Fields, ps: Fields, k: string, other: Other)
    requires Has(fs, k) && OthersTakeNull(fs, other)
    ensures Keyword(k, Get(fs, k).value, ps, Null, other) <==>
      && (k == "type" ==> TypeOk(Get(fs, k).value, Null))
      && (k == "anyOf" ==> Get(fs, k).value.Arr? && SomeAccepts(Get(fs, k).value.items, Null, other))
  {
  }

  /** Null is let through when the type and the variants let it through. */
  lemma EachTakesNull(fs: Fields, ps: Fields, other: Other)
    requires Keyed(fs) && OthersTakeNull(fs, other)
    ensures Each(fs, ps, Null, other) <==>
      && (Has(fs, "type") ==> TypeOk(Get(fs, "type").value, Null))
      && (Has(fs, "anyOf") ==>
            Get(fs, "anyOf").value.Arr? && SomeAccepts(Get(fs, "anyOf").value.items, Null, other))
  {
    forall k | Has(fs, k)
      ensures Keyword(k, Get(fs, k).value, ps, Null, other) <==>
        && (k == "type" ==> TypeOk(Get(fs, k).value, Null))
        && (k == "anyOf" ==> Get(fs, k).value.Arr? && SomeAccepts(Get(fs, k).value.items, Null, other))
    {
      KeywordTakesNull(fs, ps, k, other);
    }
    if Each(fs, ps, Null, other) {
      if Has(fs, "type") {
        EachAt(fs, ps, Null, other, "type");
      }
      if Has(fs, "anyOf") {
        EachAt(fs, ps, Null, other, "anyOf");
      }
    } else if forall k :: Has(fs, k) ==> Keyword(k, Get(fs, k).value, ps, Null, other) {
      EachFrom(fs, ps, Null, other);
    }
  }

  /** What is marked as nullable is what lets null through. */
  lemma {:induction false} AllowsNullIff(s: Json, other: Other)
    requires Dicts(s) && Decided(s, other)
    ensures AllowsNull(s.fields) <==> Accepts(s, Null, other)
    decreases Size(s)
  {
    var fs := s.fields;
    EachTakesNull(fs, PropertiesOf(fs), other);
    TypeNullIff(fs);
    VariantIs(fs);
    if Has(fs, "anyOf") {
      VariantsAt(fs, other);
      GetSmaller(fs, "anyOf");
      GetDicts(fs, "anyOf");
      SomeAllowsNullIff(Get(fs, "anyOf").value.items, other);
    }
  }

  lemma {:induction false} SomeAllowsNullIff(variants: Items, other: Other)
    requires ItemsDicts(variants) && AllDecided(variants, other)
    ensures SomeAllowsNull(variants) <==> SomeAccepts(variants, Null, other)
    decreases ItemsSize(variants)
  {
    if variants.Item? {
      AllowsNullIff(variants.head, other);
      SomeAllowsNullIff(variants.tail, other);
    }
  }

  lemma WrappedIsLarger(s: Fields)
    ensures !AllowsNull(s) ==> MakeNullable(s) != Obj(s)
  {
    var variants := Item(Obj(s), Item(NULL_TYPE, Nil));
    assert ItemsSize(variants) > Size(Obj(s));
    assert Size(Arr(variants)) > Size(Obj(s));
    assert FieldsSize(Field("anyOf", Arr(variants), Empty)) > Size(Obj(s));
  }

  /** So the wrapper leaves a schema alone exactly when it lets null through as it is. */
  lemma WrapsIff(s: Json, other: Other)
    requires Dicts(s) && Decided(s, other)
    ensures MakeNullable(s.fields) == s <==> Accepts(s, Null, other)
  {
    AllowsNullIff(s, other);
    WrappedIsLarger(s.fields);
  }

  /** And with the wrapper, null comes through. */
  lemma WrappedTakesNull(s: Json, other: Other)
    requires Dicts(s) && Decided(s, other)
    ensures Accepts(MakeNullable(s.fields), Null, other)
  {
    AllowsNullIff(s, other);
    NullableReads(s.fields, Null, other);
  }

  // ---- the nullable form ----------------------------------------------------------

  /** Two schemas with the same type and the same other keywords, and variants alike. */
  lemma StrictKeeps(fs: Fields, k: string)
    requires FieldsDicts(fs) && PlainFields(fs) && !Structural(k)
    ensures Get(StrictForm(fs, true), k) ==
      if k == "anyOf" && Has(fs, k) then Some(Norm(Get(fs, k).value, true)) else Get(fs, k)
  {
    GetNorm(fs, Get(fs, "required"), true, k);
    GetClose(Walked(fs, true), k);
    if Has(fs, k) && k != "anyOf" {
      PlainAt(fs, k);
      GetDicts(fs, k);
      StrictIsFixed(Get(fs, k).value, true);
    }
  }

  lemma {:induction false} PutVariantsDecided(fs: Fields, k: string, x: Json, other: Other)
    requires VariantsDecided(fs, other) && k != "anyOf"
    ensures VariantsDecided(Put(fs, k, x), other)
  {
    if fs.Field? && fs.key != k {
      PutVariantsDecided(fs.rest, k, x, other);
    }
  }

  lemma CloseVariantsDecided(fs: Fields, other: Other)
    requires VariantsDecided(fs, other)
    ensures VariantsDecided(Close(fs), other)
  {
    var names, closed := Arr(Names(PropertiesOf(fs))), Bool(false);
    PutVariantsDecided(fs, "required", names, other);
    PutVariantsDecided(Put(fs, "required", names), "additionalProperties", closed, other);
    PutVariantsDecided(Put(Put(fs, "required", names), "additionalProperties", closed), "additionalProperties", closed,
                       other);
    PutVariantsDecided(fs, "additionalProperties", closed, other);
  }

  lemma {:induction false} NormDecided(s: Json, other: Other)
    requires Dicts(s) && Plain(s) && Decided(s, other)
    ensures Decided(Norm(s, true), other)
    decreases s, 0
  {
    var fs := s.fields;
    forall k | !Structural(k) ensures Has(StrictForm(fs, true), k) <==> Has(fs, k) {
      StrictKeeps(fs, k);
    }
    forall k | Has(StrictForm(fs, true), k) && !Structural(k) && k != "type" && k != "anyOf"
      ensures other(k, Get(StrictForm(fs, true), k).value, Null)
    {
      StrictKeeps(fs, k);
    }
    FieldsDecided(fs, Get(fs, "required"), other);
    CloseVariantsDecided(Walked(fs, true), other);
  }

  lemma {:induction false} FieldsDecided(fs: Fields, required: Option<Json>, other: Other)
    requires FieldsDicts(fs) && PlainFields(fs) && VariantsDecided(fs, other)
    ensures VariantsDecided(NormFields(fs, required, true), other)
    decreases fs, 0
  {
    if fs.Field? {
      FieldsDecided(fs.rest, required, other);
      if fs.key == "anyOf" {
        ItemsDecided(fs.value.items, other);
        assert NormValue(fs.key, fs.value, required, true) == Arr(NormItems(fs.value.items, true));
      }
    }
  }

  lemma {:induction false} ItemsDecided(variants: Items, other: Other)
    requires ItemsDicts(variants) && PlainVariants(variants) && AllDecided(variants, other)
    ensures AllDecided(NormItems(variants, true), other)
    decreases variants, 0
  {
    if variants.Item? {
      NormDecided(variants.head, other);
      ItemsDecided(variants.tail, other);
    }
  }

  lemma {:induction false} NormTakesNullIff(s: Json, other: Other)
    requires Dicts(s) && Plain(s) && Decided(s, other)
    ensures Norm(s, true).Obj?
    ensures Accepts(Norm(s, true), Null, other) <==> Accepts(s, Null, other)
    decreases Size(s)
  {
    var fs, gs := s.fields, StrictForm(s.fields, true);
    NormDecided(s, other);
    NormDicts(s, true);
    EachTakesNull(fs, PropertiesOf(fs), other);
    EachTakesNull(gs, PropertiesOf(gs), other);
    StrictKeeps(fs, "type");
    StrictKeeps(fs, "anyOf");
    if Has(fs, "anyOf") {
      VariantsAt(fs, other);
      GetSmaller(fs, "anyOf");
      GetDicts(fs, "anyOf");
      PlainAt(fs, "anyOf");
      SomeTakesNullIff(Get(fs, "anyOf").value.items, other);
    }
  }

  lemma {:induction false} SomeTakesNullIff(variants: Items, other: Other)
    requires ItemsDicts(variants) && PlainVariants(variants) && AllDecided(variants, other)
    ensures SomeAccepts(NormItems(variants, true), Null, other) <==> SomeAccepts(variants, Null, other)
    decreases ItemsSize(variants)
  {
    if variants.Item? {
      NormTakesNullIff(variants.head, other);
      SomeTakesNullIff(variants.tail, other);
    }
  }

  /** The property of this name in the nullable form lets null through exactly when it was
      optional, or let null through before. */
  lemma PropertyTakesNullIff(fs: Fields, name: string, other: Other)
    requires HasProperties(fs) && Has(PropertiesOf(fs), name)
    requires var x := Get(PropertiesOf(fs), name).value; Dicts(x) && Plain(x) && Decided(x, other)
    ensures Has(PropertiesOf(StrictForm(fs, true)), name)
    ensures Accepts(Get(PropertiesOf(StrictForm(fs, true)), name).value, Null, other) <==>
      !InRequired(Get(fs, "required"), name) || Accepts(Get(PropertiesOf(fs), name).value, Null, other)
  {
    var x := Get(PropertiesOf(fs), name).value;
    PropertiesNormed(fs, true);
    GetNormProperties(PropertiesOf(fs), Get(fs, "required"), true, name);
    NormDecided(x, other);
    NormDicts(x, true);
    NormTakesNullIff(x, other);
    if !InRequired(Get(fs, "required"), name) {
      WrappedTakesNull(Norm(x, true), other);
    }
  }
}
