/** Exactly what the strict form accepts: what the schema does when it is read strictly. */
module SchemaExact {
  import opened Options
  import opened Json
  import opened StrictSchema
  import opened SchemaMeaning

  ghost predicate SameNames(ps: Fields, members: Fields) { forall k :: Has(ps, k) <==> Has(members, k) }

  /** Where there are properties, an object has all of them and nothing else; where there are
      none, something of the type object has no members. */
  ghost predicate Contained(fs: Fields, v: Json) {
    v.Obj? ==>
      && (HasProperties(fs) ==> SameNames(PropertiesOf(fs), v.fields))
      && (!HasProperties(fs) && Get(fs, "type") == Some(Str("object")) ==> v.fields.Empty?)
  }

  /** The member rules of the schema give way to that. */
  predicate Overruled(fs: Fields, k: string) {
    || (k == "required" && HasProperties(fs))
    || (k == "additionalProperties" && (HasProperties(fs) || Get(fs, "type") == Some(Str("object"))))
  }

  /** The value meets the schema, read strictly: all through it, objects have what is listed
      and nothing else, and where null is to stand for a missing optional property, it may,
      unless the property is marked as nullable already. */
  ghost predicate Reads(s: Json, nullable: bool, v: Json, other: Other)
    decreases s, 0
  {
    match s
    case Bool(b) => b
    case Obj(fields) => Contained(fields, v) && ReadsEach(fields, fields, nullable, v, other)
    case _ => false
  }

  ghost predicate ReadsEach(fs: Fields, whole: Fields, nullable: bool, v: Json, other: Other)
    decreases fs, 0
  {
    fs.Field? ==>
      && (Overruled(whole, fs.key) || ReadsKeyword(fs.key, fs.value, Get(whole, "required"), nullable, v, other))
      && ReadsEach(fs.rest, whole, nullable, v, other)
  }

  ghost predicate ReadsKeyword(k: string, x: Json, required: Option<Json>, nullable: bool, v: Json, other: Other)
    decreases x, 1
  {
    if k == "default" then true
    else if k == "type" then TypeOk(x, v)
    else if k == "properties" then x.Obj? && v.Obj? ==> ReadsProperties(x.fields, required, nullable, v.fields, other)
    else if k == "required" then x.Arr? && v.Obj? ==> RequiredOk(x.items, v.fields)
    else if k == "additionalProperties" then v.Obj? ==> ReadsMembers(x, nullable, v.fields, other)
    else if k == "items" then v.Arr? ==> ReadsElements(x, nullable, v.items, other)
    else if k == "anyOf" then x.Arr? && ReadsSome(x.items, nullable, v, other)
    else other(k, x, v)
  }

  ghost predicate ReadsProperties(ps: Fields, required: Option<Json>, nullable: bool, members: Fields, other: Other)
    decreases ps, 0
  {
    ps.Field? ==>
      && ReadsNamed(ps.key, ps.value, nullable && !InRequired(required, ps.key), nullable, members, other)
      && ReadsProperties(ps.rest, required, nullable, members, other)
  }

  ghost predicate ReadsNamed(name: string, s: Json, optional: bool, nullable: bool, members: Fields, other: Other)
    decreases s, 1, members
  {
    members.Field? ==>
      && (members.key == name ==>
            Reads(s, nullable, members.value, other) || (members.value.Null? && optional && NeedsNull(s)))
      && ReadsNamed(name, s, optional, nullable, members.rest, other)
  }

  /** Not marked as nullable. */
  predicate NeedsNull(s: Json) { s.Obj? && !AllowsNull(s.fields) }

  ghost predicate ReadsMembers(s: Json, nullable: bool, members: Fields, other: Other)
    decreases s, 1, members
  {
    members.Field? ==> Reads(s, nullable, members.value, other) && ReadsMembers(s, nullable, members.rest, other)
  }

  ghost predicate ReadsElements(s: Json, nullable: bool, elements: Items, other: Other)
    decreases s, 1, elements
  {
    elements.Item? ==> Reads(s, nullable, elements.head, other) && ReadsElements(s, nullable, elements.tail, other)
  }

  ghost predicate ReadsSome(variants: Items, nullable: bool, v: Json, other: Other)
    decreases variants, 0
  {
    variants.Item? && (Reads(variants.head, nullable, v, other) || ReadsSome(variants.tail, nullable, v, other))
  }

  // ---- what normalising leaves ------------------------------------------------------

  /** A keyword that is not overruled survives with its argument normalised. */
  lemma StrictFormAt(fs: Fields, nullable: bool, k: string)
    ensures Get(StrictForm(fs, nullable), k) ==
      if k == "required" && HasProperties(fs) then Some(Arr(Names(PropertiesOf(StrictForm(fs, nullable)))))
      else if Overruled(Walked(fs, nullable), k) then Some(Bool(false))
      else if k == "default" || !Has(fs, k) then None
      else Some(NormValue(k, Get(fs, k).value, Get(fs, "required"), nullable))
  {
    PropertiesNormed(fs, nullable);
    GetClose(Walked(fs, nullable), k);
    GetNorm(fs, Get(fs, "required"), nullable, k);
  }

  lemma TypeKept(fs: Fields, nullable: bool)
    requires FieldsDicts(fs) && PlainFields(fs)
    ensures Get(StrictForm(fs, nullable), "type") == Get(fs, "type")
    ensures forall k :: Overruled(Walked(fs, nullable), k) <==> Overruled(fs, k)
  {
    PropertiesNormed(fs, nullable);
    GetNorm(fs, Get(fs, "required"), nullable, "type");
    GetClose(Walked(fs, nullable), "type");
    if Has(fs, "type") {
      PlainAt(fs, "type");
      GetDicts(fs, "type");
      StrictIsFixed(Get(fs, "type").value, nullable);
    }
  }

  lemma {:induction false} MarkKept(s: Json, nullable: bool)
    requires Dicts(s) && Plain(s)
    ensures Norm(s, nullable).Obj? <==> s.Obj?
    ensures s.Obj? ==> (AllowsNull(Norm(s, nullable).fields) <==> AllowsNull(s.fields))
    decreases Size(s)
  {
    if s.Obj? {
      var fs := s.fields;
      TypeKept(fs, nullable);
      StrictFormAt(fs, nullable, "anyOf");
      VariantIs(fs);
      VariantIs(StrictForm(fs, nullable));
      if Has(fs, "anyOf") {
        GetSmaller(fs, "anyOf");
        GetDicts(fs, "anyOf");
        PlainAt(fs, "anyOf");
        SomeMarkKept(Get(fs, "anyOf").value.items, nullable);
      }
    }
  }

  lemma {:induction false} SomeMarkKept(variants: Items, nullable: bool)
    requires ItemsDicts(variants) && PlainVariants(variants)
    ensures SomeAllowsNull(NormItems(variants, nullable)) <==> SomeAllowsNull(variants)
    decreases ItemsSize(variants)
  {
    if variants.Item? {
      MarkKept(variants.head, nullable);
      SomeMarkKept(variants.tail, nullable);
    }
  }

  lemma {:induction false} VariantIs(fs: Fields)
    ensures VariantAllowsNull(fs) <==>
      Has(fs, "anyOf") && Get(fs, "anyOf").value.Arr? && SomeAllowsNull(Get(fs, "anyOf").value.items)
  {
    if fs.Field? && fs.key != "anyOf" {
      VariantIs(fs.rest);
    }
  }

  // ---- closed objects ---------------------------------------------------------------

  lemma {:induction false} AllRequiredIff(ps: Fields, members: Fields)
    ensures RequiredOk(Names(ps), members) <==> forall k :: Has(ps, k) ==> Has(members, k)
  {
    if ps.Field? {
      AllRequiredIff(ps.rest, members);
      assert Has(ps, ps.key);
      assert forall k :: Has(ps.rest, k) ==> Has(ps, k);
    }
  }

  lemma {:induction false} NothingElseIff(ps: Fields, members: Fields, other: Other)
    ensures RestOk(Bool(false), ps, members, other) <==> forall k :: Has(members, k) ==> Has(ps, k)
    decreases members
  {
    if members.Field? {
      NothingElseIff(ps, members.rest, other);
      assert Has(members, members.key);
      assert forall k :: Has(members.rest, k) ==> Has(members, k);
    }
  }

  /** The overruling keywords of the strict form say that the value is contained. */
  ghost predicate SaysContained(fs: Fields, qs: Fields, v: Json, other: Other) {
    && (HasProperties(fs) ==> Keyword("required", Arr(Names(qs)), qs, v, other))
    && (Overruled(fs, "additionalProperties") ==> Keyword("additionalProperties", Bool(false), qs, v, other))
  }

  lemma ContainedIff(fs: Fields, nullable: bool, v: Json, other: Other)
    ensures SaysContained(fs, PropertiesOf(StrictForm(fs, nullable)), v, other) <==> Contained(fs, v)
  {
    var qs := PropertiesOf(StrictForm(fs, nullable));
    PropertiesNormed(fs, nullable);
    if v.Obj? {
      AllRequiredIff(qs, v.fields);
      NothingElseIff(qs, v.fields, other);
      if !HasProperties(fs) && v.fields.Field? {
        assert Has(v.fields, v.fields.key);
      }
    }
  }

  // ---- the strict form, keyword by keyword --------------------------------------------

  lemma {:induction false} ReadsAt(fs: Fields, whole: Fields, nullable: bool, v: Json, other: Other, k: string)
    requires ReadsEach(fs, whole, nullable, v, other) && Has(fs, k) && !Overruled(whole, k)
    ensures ReadsKeyword(k, Get(fs, k).value, Get(whole, "required"), nullable, v, other)
  {
    if fs.key != k {
      ReadsAt(fs.rest, whole, nullable, v, other, k);
    }
  }

  lemma {:induction false} ReadsFrom(fs: Fields, whole: Fields, nullable: bool, v: Json, other: Other)
    requires Keyed(fs)
    requires forall k :: Has(fs, k) && !Overruled(whole, k) ==>
      ReadsKeyword(k, Get(fs, k).value, Get(whole, "required"), nullable, v, other)
    ensures ReadsEach(fs, whole, nullable, v, other)
  {
    if fs.Field? {
      assert Has(fs, fs.key);
      forall k | Has(fs.rest, k) && !Overruled(whole, k)
        ensures ReadsKeyword(k, Get(fs.rest, k).value, Get(whole, "required"), nullable, v, other)
      {
        assert Has(fs, k) && Get(fs, k) == Get(fs.rest, k);
      }
      ReadsFrom(fs.rest, whole, nullable, v, other);
    }
  }

  /** The strict form accepts exactly what meets the schema read strictly. */
  lemma {:induction false} StrictFormReads(s: Json, nullable: bool, v: Json, other: Other)
    requires Dicts(s) && Plain(s)
    ensures Accepts(Norm(s, nullable), v, other) <==> Reads(s, nullable, v, other)
    decreases Size(s), 0
  {
    if s.Obj? {
      var fs := s.fields;
      forall k | Has(fs, k) && k != "default" && !Overruled(fs, k)
        ensures Meant(fs, nullable, v, other, k)
      {
        KeywordMeant(fs, nullable, v, other, k);
      }
      NormDicts(s, nullable);
      ContainedIff(fs, nullable, v, other);
      if Accepts(Norm(s, nullable), v, other) {
        AcceptedReads(fs, nullable, v, other);
      }
      if Reads(s, nullable, v, other) {
        ReadAccepts(fs, nullable, v, other);
      }
    }
  }

  /** The keyword means the same in the strict form as in the schema read strictly. */
  ghost predicate Meant(fs: Fields, nullable: bool, v: Json, other: Other, k: string)
    requires Has(fs, k)
  {
    var x, required := Get(fs, k).value, Get(fs, "required");
    Keyword(k, NormValue(k, x, required, nullable), PropertiesOf(StrictForm(fs, nullable)), v, other) <==>
      ReadsKeyword(k, x, required, nullable, v, other)
  }

  lemma AcceptedReads(fs: Fields, nullable: bool, v: Json, other: Other)
    requires Keyed(fs) && FieldsDicts(fs) && PlainFields(fs)
    requires forall k :: Has(fs, k) && k != "default" && !Overruled(fs, k) ==> Meant(fs, nullable, v, other, k)
    requires Each(StrictForm(fs, nullable), PropertiesOf(StrictForm(fs, nullable)), v, other)
    ensures SaysContained(fs, PropertiesOf(StrictForm(fs, nullable)), v, other)
    ensures ReadsEach(fs, fs, nullable, v, other)
  {
    var gs := StrictForm(fs, nullable);
    var qs := PropertiesOf(gs);
    TypeKept(fs, nullable);
    StrictFormAt(fs, nullable, "required");
    StrictFormAt(fs, nullable, "additionalProperties");
    if HasProperties(fs) {
      EachAt(gs, qs, v, other, "required");
    }
    if Overruled(fs, "additionalProperties") {
      EachAt(gs, qs, v, other, "additionalProperties");
    }
    forall k | Has(fs, k) && !Overruled(fs, k)
      ensures ReadsKeyword(k, Get(fs, k).value, Get(fs, "required"), nullable, v, other)
    {
      if k != "default" {
        StrictFormAt(fs, nullable, k);
        EachAt(gs, qs, v, other, k);
        assert Meant(fs, nullable, v, other, k);
      }
    }
    ReadsFrom(fs, fs, nullable, v, other);
  }

  lemma ReadAccepts(fs: Fields, nullable: bool, v: Json, other: Other)
    requires Keyed(fs) && FieldsDicts(fs) && PlainFields(fs) && Keyed(StrictForm(fs, nullable))
    requires forall k :: Has(fs, k) && k != "default" && !Overruled(fs, k) ==> Meant(fs, nullable, v, other, k)
    requires SaysContained(fs, PropertiesOf(StrictForm(fs, nullable)), v, other)
    requires ReadsEach(fs, fs, nullable, v, other)
    ensures Each(StrictForm(fs, nullable), PropertiesOf(StrictForm(fs, nullable)), v, other)
  {
    var gs := StrictForm(fs, nullable);
    var qs := PropertiesOf(gs);
    TypeKept(fs, nullable);
    forall k | Has(gs, k) ensures Keyword(k, Get(gs, k).value, qs, v, other) {
      StrictFormAt(fs, nullable, k);
      if !Overruled(fs, k) {
        ReadsAt(fs, fs, nullable, v, other, k);
        assert Meant(fs, nullable, v, other, k);
      }
    }
    EachFrom(gs, qs, v, other);
  }

  lemma {:induction false} KeywordMeant(fs: Fields, nullable: bool, v: Json, other: Other, k: string)
    requires FieldsDicts(fs) && PlainFields(fs) && Has(fs, k) && k != "default" && !Overruled(fs, k)
    ensures Meant(fs, nullable, v, other, k)
    decreases FieldsSize(fs), 1
  {
    var x, required := Get(fs, k).value, Get(fs, "required");
    GetSmaller(fs, k);
    GetDicts(fs, k);
    PlainAt(fs, k);
    if k == "properties" {
      if v.Obj? {
        PropertiesRead(x.fields, required, nullable, v.fields, other);
      }
    } else if k == "required" {
    } else if k == "additionalProperties" {
      if v.Obj? {
        PropertiesNormed(fs, nullable);
        MembersRead(x, PropertiesOf(StrictForm(fs, nullable)), nullable, v.fields, other);
      }
    } else if k == "items" {
      if v.Arr? {
        ElementsRead(x, nullable, v.items, other);
      }
    } else if k == "anyOf" {
      assert Norm(x, nullable) == Arr(NormItems(x.items, nullable));
      SomeRead(x.items, nullable, v, other);
    } else {
      StrictIsFixed(x, nullable);
    }
  }

  lemma {:induction false} PropertiesRead(ps: Fields, required: Option<Json>, nullable: bool, members: Fields,
                                          other: Other)
    requires FieldsDicts(ps) && PlainProperties(ps)
    ensures PropertiesOk(NormProperties(ps, required, nullable), members, other) <==>
      ReadsProperties(ps, required, nullable, members, other)
    decreases FieldsSize(ps), 0
  {
    if ps.Field? {
      NamedRead(ps.key, ps.value, InRequired(required, ps.key), nullable, members, other);
      PropertiesRead(ps.rest, required, nullable, members, other);
    }
  }

  lemma {:induction false} NamedRead(name: string, s: Json, kept: bool, nullable: bool, members: Fields, other: Other)
    requires Dicts(s) && Plain(s)
    ensures NamedOk(name, NormProperty(s, kept, nullable), members, other) <==>
      ReadsNamed(name, s, nullable && !kept, nullable, members, other)
    decreases Size(s), 1, members
  {
    if members.Field? {
      StrictFormReads(s, nullable, members.value, other);
      MarkKept(s, nullable);
      if nullable && !kept && s.Obj? {
        NullableReads(Norm(s, nullable).fields, members.value, other);
      }
      NamedRead(name, s, kept, nullable, members.rest, other);
    }
  }

  /** The nullable wrapper takes what it wraps, and null. */
  lemma NullableReads(s: Fields, v: Json, other: Other)
    ensures Accepts(MakeNullable(s), v, other) <==> Accepts(Obj(s), v, other) || (v.Null? && !AllowsNull(s))
  {
    if !AllowsNull(s) {
      var variants := Item(Obj(s), Item(NULL_TYPE, Nil));
      var wrapped := Field("anyOf", Arr(variants), Empty);
      assert Each(wrapped, PropertiesOf(wrapped), v, other) <==> SomeAccepts(variants, v, other);
      NullTypeIff(v, other);
      assert SomeAccepts(variants.tail, v, other) <==> Accepts(NULL_TYPE, v, other);
    }
  }

  lemma NullTypeIff(v: Json, other: Other)
    ensures Accepts(NULL_TYPE, v, other) <==> v.Null?
  {
    var only := Field("type", Str("null"), Empty);
    assert Keyword("type", Str("null"), PropertiesOf(only), v, other) <==> v.Null?;
    assert Each(only, PropertiesOf(only), v, other) <==> v.Null?;
  }

  lemma {:induction false} MembersRead(s: Json, qs: Fields, nullable: bool, members: Fields, other: Other)
    requires Dicts(s) && Plain(s) && qs.Empty?
    ensures RestOk(Norm(s, nullable), qs, members, other) <==> ReadsMembers(s, nullable, members, other)
    decreases Size(s), 1, members
  {
    if members.Field? {
      StrictFormReads(s, nullable, members.value, other);
      MembersRead(s, qs, nullable, members.rest, other);
    }
  }

  lemma {:induction false} ElementsRead(s: Json, nullable: bool, elements: Items, other: Other)
    requires Dicts(s) && Plain(s)
    ensures ElementsOk(Norm(s, nullable), elements, other) <==> ReadsElements(s, nullable, elements, other)
    decreases Size(s), 1, elements
  {
    if elements.Item? {
      StrictFormReads(s, nullable, elements.head, other);
      ElementsRead(s, nullable, elements.tail, other);
    }
  }

  lemma {:induction false} SomeRead(variants: Items, nullable: bool, v: Json, other: Other)
    requires ItemsDicts(variants) && PlainVariants(variants)
    ensures SomeAccepts(NormItems(variants, nullable), v, other) <==> ReadsSome(variants, nullable, v, other)
    decreases ItemsSize(variants), 0
  {
    if variants.Item? {
      StrictFormReads(variants.head, nullable, v, other);
      SomeRead(variants.tail, nullable, v, other);
    }
  }
}
