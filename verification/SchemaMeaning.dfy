/** What a schema accepts, and what normalising does to that: with required properties
    kept, the strict form accepts nothing the original refuses; with optional properties
    made nullable, what it accepts is accepted by the original once some null members are
    dropped. */
module SchemaMeaning {
  import opened Options
  import opened Json
  import opened StrictSchema

  /** The meaning of every keyword not interpreted here: what value v the keyword k with
      argument x lets through. */
  type Other = (string, Json, Json) -> bool

  predicate IsType(t: string, v: Json) {
    match t
    case "null" => v.Null?
    case "boolean" => v.Bool?
    case "object" => v.Obj?
    case "array" => v.Arr?
    case "number" => v.Num?
    case "string" => v.Str?
    case "integer" => v.Num? && v.n == v.n.Floor as real
    case _ => false
  }

  predicate IsSomeType(ts: Items, v: Json) {
    ts.Item? && ((ts.head.Str? && IsType(ts.head.s, v)) || IsSomeType(ts.tail, v))
  }

  predicate TypeOk(x: Json, v: Json) {
    match x
    case Str(t) => IsType(t, v)
    case Arr(ts) => IsSomeType(ts, v)
    case _ => false
  }

  predicate RequiredOk(names: Items, members: Fields) {
    names.Item? ==> (names.head.Str? ==> Has(members, names.head.s)) && RequiredOk(names.tail, members)
  }

  /** A boolean schema accepts all or nothing; an object schema what all its keywords do. */
  predicate Accepts(s: Json, v: Json, other: Other)
    decreases s, 0
  {
    match s
    case Bool(b) => b
    case Obj(fields) => Each(fields, PropertiesOf(fields), v, other)
    case _ => false
  }

  /** The keywords fs of a schema with the properties ps. */
  predicate Each(fs: Fields, ps: Fields, v: Json, other: Other)
    decreases fs, 0
  {
    fs.Field? ==> Keyword(fs.key, fs.value, ps, v, other) && Each(fs.rest, ps, v, other)
  }

  predicate Keyword(k: string, x: Json, ps: Fields, v: Json, other: Other)
    decreases x, 1
  {
    if k == "default" then true
    else if k == "type" then TypeOk(x, v)
    else if k == "properties" then x.Obj? && v.Obj? ==> PropertiesOk(x.fields, v.fields, other)
    else if k == "required" then x.Arr? && v.Obj? ==> RequiredOk(x.items, v.fields)
    else if k == "additionalProperties" then v.Obj? ==> RestOk(x, ps, v.fields, other)
    else if k == "items" then v.Arr? ==> ElementsOk(x, v.items, other)
    else if k == "anyOf" then x.Arr? && SomeAccepts(x.items, v, other)
    else other(k, x, v)
  }

  predicate PropertiesOk(ps: Fields, members: Fields, other: Other)
    decreases ps, 0
  {
    ps.Field? ==> NamedOk(ps.key, ps.value, members, other) && PropertiesOk(ps.rest, members, other)
  }

  predicate NamedOk(name: string, s: Json, members: Fields, other: Other)
    decreases s, 1, members
  {
    members.Field? ==>
      (members.key == name ==> Accepts(s, members.value, other)) && NamedOk(name, s, members.rest, other)
  }

  /** The members that are no property meet s. */
  predicate RestOk(s: Json, ps: Fields, members: Fields, other: Other)
    decreases s, 1, members
  {
    members.Field? ==>
      (!Has(ps, members.key) ==> Accepts(s, members.value, other)) && RestOk(s, ps, members.rest, other)
  }

  predicate ElementsOk(s: Json, elements: Items, other: Other)
    decreases s, 1, elements
  {
    elements.Item? ==> Accepts(s, elements.head, other) && ElementsOk(s, elements.tail, other)
  }

  predicate SomeAccepts(variants: Items, v: Json, other: Other)
    decreases variants
  {
    variants.Item? && (Accepts(variants.head, v, other) || SomeAccepts(variants.tail, v, other))
  }

  // ---- the schemas spoken of --------------------------------------------------

  predicate AllNamed(names: Items, ps: Fields) {
    names.Item? ==> names.head.Str? && Has(ps, names.head.s) && AllNamed(names.tail, ps)
  }

  predicate AllNames(names: Items) {
    names.Item? ==> names.head.Str? && AllNames(names.tail)
  }

  /** Schemas without references: sub-schemas where schemas belong, required a list of
      names, which are properties where there are properties, and no other keyword with a
      part that normalising would change. */
  predicate Plain(s: Json)
    decreases s, 0
  {
    match s
    case Bool(_) => true
    case Obj(fields) => PlainFields(fields) && (HasProperties(fields) ==> RequiredNamed(fields))
    case _ => false
  }

  predicate RequiredNamed(fs: Fields) {
    var r := Get(fs, "required");
    r.Some? && r.value.Arr? ==> AllNamed(r.value.items, PropertiesOf(fs))
  }

  predicate PlainFields(fs: Fields)
    decreases fs, 0
  {
    fs.Field? ==> PlainKeyword(fs.key, fs.value) && PlainFields(fs.rest)
  }

  predicate PlainKeyword(k: string, x: Json)
    decreases x, 1
  {
    if k == "default" then true
    else if k == "properties" then x.Obj? && PlainProperties(x.fields)
    else if k == "required" then x.Arr? && AllNames(x.items)
    else if k == "additionalProperties" || k == "items" then Plain(x)
    else if k == "anyOf" then x.Arr? && PlainVariants(x.items)
    else k != "$ref" && Strict(x)
  }

  predicate PlainProperties(ps: Fields)
    decreases ps, 0
  {
    ps.Field? ==> Plain(ps.value) && PlainProperties(ps.rest)
  }

  predicate PlainVariants(variants: Items)
    decreases variants, 0
  {
    variants.Item? ==> Plain(variants.head) && PlainVariants(variants.tail)
  }

  // ---- keywords, one at a time ------------------------------------------------

  lemma {:induction false} EachAt(fs: Fields, ps: Fields, v: Json, other: Other, k: string)
    requires Each(fs, ps, v, other) && Has(fs, k)
    ensures Keyword(k, Get(fs, k).value, ps, v, other)
  {
    if fs.key != k {
      EachAt(fs.rest, ps, v, other, k);
    }
  }

  /** All keywords hold when each holds as it is looked up. */
  lemma {:induction false} EachFrom(fs: Fields, ps: Fields, v: Json, other: Other)
    requires Keyed(fs)
    requires forall k :: Has(fs, k) ==> Keyword(k, Get(fs, k).value, ps, v, other)
    ensures Each(fs, ps, v, other)
  {
    if fs.Field? {
      assert Has(fs, fs.key);
      forall k | Has(fs.rest, k) ensures Keyword(k, Get(fs.rest, k).value, ps, v, other) {
        assert Has(fs, k) && Get(fs, k) == Get(fs.rest, k);
      }
      EachFrom(fs.rest, ps, v, other);
    }
  }

  lemma {:induction false} PlainAt(fs: Fields, k: string)
    requires PlainFields(fs) && Has(fs, k)
    ensures PlainKeyword(k, Get(fs, k).value)
  {
    if fs.key != k {
      PlainAt(fs.rest, k);
    }
  }

  lemma {:induction false} RequiredAt(names: Items, members: Fields, name: string)
    requires RequiredOk(names, members) && Contains(names, Str(name))
    ensures Has(members, name)
  {
    if names.head != Str(name) {
      RequiredAt(names.tail, members, name);
    }
  }

  /** Whoever has all the property names has the required ones. */
  lemma {:induction false} RequiredFrom(names: Items, ps: Fields, members: Fields)
    requires AllNamed(names, ps) && RequiredOk(Names(ps), members)
    ensures RequiredOk(names, members)
  {
    if names.Item? {
      NamesAre(ps, names.head.s);
      RequiredAt(Names(ps), members, names.head.s);
      RequiredFrom(names.tail, ps, members);
    }
  }

  /** Nothing but properties: the members outside them then meet any schema. */
  lemma {:induction false} RestFromClosed(s: Json, ps: Fields, qs: Fields, members: Fields, other: Other)
    requires RestOk(Bool(false), qs, members, other) && forall k :: Has(ps, k) <==> Has(qs, k)
    ensures RestOk(s, ps, members, other)
    decreases members
  {
    if members.Field? {
      RestFromClosed(s, ps, qs, members.rest, other);
    }
  }

  // ---- the strict form of an object -------------------------------------------

  function Walked(fs: Fields, nullable: bool): Fields { NormFields(fs, Get(fs, "required"), nullable) }

  function StrictForm(fs: Fields, nullable: bool): Fields { Close(Walked(fs, nullable)) }

  lemma PropertiesNormed(fs: Fields, nullable: bool)
    ensures HasProperties(StrictForm(fs, nullable)) <==> HasProperties(fs)
    ensures PropertiesOf(StrictForm(fs, nullable)) == NormProperties(PropertiesOf(fs), Get(fs, "required"), nullable)
    ensures HasProperties(Walked(fs, nullable)) <==> HasProperties(fs)
    ensures PropertiesOf(Walked(fs, nullable)) == PropertiesOf(StrictForm(fs, nullable))
    ensures forall k :: Has(PropertiesOf(StrictForm(fs, nullable)), k) <==> Has(PropertiesOf(fs), k)
  {
    GetClose(Walked(fs, nullable), "properties");
    GetNorm(fs, Get(fs, "required"), nullable, "properties");
    forall k ensures Has(PropertiesOf(StrictForm(fs, nullable)), k) <==> Has(PropertiesOf(fs), k) {
      GetNormProperties(PropertiesOf(fs), Get(fs, "required"), nullable, k);
    }
  }

  /** What the strict form holds under the key of a keyword of the original. */
  predicate Survives(fs: Fields, k: string, x: Json, nullable: bool) {
    var y := Get(StrictForm(fs, nullable), k);
    if k == "required" && HasProperties(fs) then y == Some(Arr(Names(PropertiesOf(StrictForm(fs, nullable)))))
    else if k == "additionalProperties" then
      y == Some(Bool(false)) || (y == Some(Norm(x, nullable)) && !HasProperties(fs))
    else y == Some(NormValue(k, x, Get(fs, "required"), nullable))
  }

  lemma KeywordSurvives(fs: Fields, k: string, nullable: bool)
    requires Has(fs, k) && k != "default"
    ensures Survives(fs, k, Get(fs, k).value, nullable)
  {
    GetNorm(fs, Get(fs, "required"), nullable, k);
    GetClose(Walked(fs, nullable), k);
    PropertiesNormed(fs, nullable);
  }

  // ---- the strict form only restricts -----------------------------------------

  /** Every value the strict form accepts, the schema accepts. */
  lemma {:induction false} StrictFormRestricts(s: Json, v: Json, other: Other)
    requires Dicts(s) && Plain(s) && Accepts(Norm(s, false), v, other)
    ensures Accepts(s, v, other)
    decreases s, 0
  {
    if s.Obj? {
      FieldsRestrict(s.fields, s.fields, v, other);
    }
  }

  lemma {:induction false} FieldsRestrict(fs: Fields, whole: Fields, v: Json, other: Other)
    requires Keyed(fs) && FieldsDicts(fs) && PlainFields(fs)
    requires HasProperties(whole) ==> RequiredNamed(whole)
    requires forall k :: Has(fs, k) ==> Get(whole, k) == Get(fs, k)
    requires Each(StrictForm(whole, false), PropertiesOf(StrictForm(whole, false)), v, other)
    ensures Each(fs, PropertiesOf(whole), v, other)
    decreases fs, 0
  {
    if fs.Field? {
      assert Has(fs, fs.key);
      KeywordRestricts(fs.key, fs.value, whole, v, other);
      forall k | Has(fs.rest, k) ensures Get(whole, k) == Get(fs.rest, k) {
        assert Has(fs, k);
      }
      FieldsRestrict(fs.rest, whole, v, other);
    }
  }

  lemma {:induction false} KeywordRestricts(k: string, x: Json, whole: Fields, v: Json, other: Other)
    requires Get(whole, k) == Some(x) && Dicts(x) && PlainKeyword(k, x)
    requires HasProperties(whole) ==> RequiredNamed(whole)
    requires Each(StrictForm(whole, false), PropertiesOf(StrictForm(whole, false)), v, other)
    ensures Keyword(k, x, PropertiesOf(whole), v, other)
    decreases x, 1
  {
    if k != "default" {
      var gs, ps := StrictForm(whole, false), PropertiesOf(whole);
      var qs := PropertiesOf(gs);
      KeywordSurvives(whole, k, false);
      PropertiesNormed(whole, false);
      EachAt(gs, qs, v, other, k);
      if k == "properties" {
        if v.Obj? {
          PropertiesRestrict(x.fields, Get(whole, "required"), v.fields, other);
        }
      } else if k == "required" {
        if v.Obj? && HasProperties(whole) {
          RequiredFromStrict(x.items, ps, qs, v.fields);
        }
      } else if k == "additionalProperties" {
        if v.Obj? {
          if Get(gs, k) == Some(Bool(false)) {
            RestFromClosed(x, ps, qs, v.fields, other);
          } else {
            RestRestricts(x, ps, qs, v.fields, other);
          }
        }
      } else if k == "items" {
        if v.Arr? {
          ElementsRestrict(x, v.items, other);
        }
      } else if k == "anyOf" {
        assert Norm(x, false) == Arr(NormItems(x.items, false));
        SomeRestricts(x.items, v, other);
      } else {
        StrictIsFixed(x, false);
      }
    }
  }

  lemma RequiredFromStrict(names: Items, ps: Fields, qs: Fields, members: Fields)
    requires AllNamed(names, ps) && RequiredOk(Names(qs), members) && forall k :: Has(qs, k) <==> Has(ps, k)
    ensures RequiredOk(names, members)
  {
    AllNamedToo(names, ps, qs);
    RequiredFrom(names, qs, members);
  }

  lemma {:induction false} AllNamedToo(names: Items, ps: Fields, qs: Fields)
    requires AllNamed(names, ps) && forall k :: Has(qs, k) <==> Has(ps, k)
    ensures AllNamed(names, qs)
  {
    if names.Item? {
      AllNamedToo(names.tail, ps, qs);
    }
  }

  lemma {:induction false} PropertiesRestrict(ps: Fields, required: Option<Json>, members: Fields, other: Other)
    requires FieldsDicts(ps) && PlainProperties(ps)
    requires PropertiesOk(NormProperties(ps, required, false), members, other)
    ensures PropertiesOk(ps, members, other)
    decreases ps, 0
  {
    if ps.Field? {
      assert NormProperty(ps.value, InRequired(required, ps.key), false) == Norm(ps.value, false);
      NamedRestricts(ps.key, ps.value, members, other);
      PropertiesRestrict(ps.rest, required, members, other);
    }
  }

  lemma {:induction false} NamedRestricts(name: string, s: Json, members: Fields, other: Other)
    requires Dicts(s) && Plain(s) && NamedOk(name, Norm(s, false), members, other)
    ensures NamedOk(name, s, members, other)
    decreases s, 1, members
  {
    if members.Field? {
      if members.key == name {
        StrictFormRestricts(s, members.value, other);
      }
      NamedRestricts(name, s, members.rest, other);
    }
  }

  lemma {:induction false} RestRestricts(s: Json, ps: Fields, qs: Fields, members: Fields, other: Other)
    requires Dicts(s) && Plain(s) && RestOk(Norm(s, false), qs, members, other)
    requires forall k :: Has(qs, k) <==> Has(ps, k)
    ensures RestOk(s, ps, members, other)
    decreases s, 1, members
  {
    if members.Field? {
      if !Has(ps, members.key) {
        StrictFormRestricts(s, members.value, other);
      }
      RestRestricts(s, ps, qs, members.rest, other);
    }
  }

  lemma {:induction false} ElementsRestrict(s: Json, elements: Items, other: Other)
    requires Dicts(s) && Plain(s) && ElementsOk(Norm(s, false), elements, other)
    ensures ElementsOk(s, elements, other)
    decreases s, 1, elements
  {
    if elements.Item? {
      StrictFormRestricts(s, elements.head, other);
      ElementsRestrict(s, elements.tail, other);
    }
  }

  lemma {:induction false} SomeRestricts(variants: Items, v: Json, other: Other)
    requires ItemsDicts(variants) && PlainVariants(variants) && SomeAccepts(NormItems(variants, false), v, other)
    ensures SomeAccepts(variants, v, other)
    decreases variants, 0
  {
    if Accepts(Norm(variants.head, false), v, other) {
      StrictFormRestricts(variants.head, v, other);
    } else {
      SomeRestricts(variants.tail, v, other);
    }
  }

  lemma {:induction false} ClosedMembers(ps: Fields, members: Fields, other: Other, k: string)
    requires RestOk(Bool(false), ps, members, other) && Has(members, k)
    ensures Has(ps, k)
    decreases members
  {
    if members.key != k {
      ClosedMembers(ps, members.rest, other, k);
    }
  }

  lemma {:induction false} ForgottenName(names: Items, ps: Fields, members: Fields)
    requires AllNames(names) && !AllNamed(names, ps)
    requires forall k :: Has(members, k) ==> Has(ps, k)
    ensures !RequiredOk(names, members)
  {
    if Has(ps, names.head.s) {
      ForgottenName(names.tail, ps, members);
    }
  }

  /** Without that condition it holds of no object: a required name that is no property is
      forgotten by the strict form, whose objects have no members but properties, so of the
      objects it accepts the schema accepts all or none. */
  lemma StrictObjectAcceptedIff(fs: Fields, v: Json, other: Other)
    requires Dicts(Obj(fs)) && PlainFields(fs) && HasProperties(fs)
    requires v.Obj? && Accepts(Norm(Obj(fs), false), v, other)
    ensures Accepts(Obj(fs), v, other) <==> RequiredNamed(fs)
  {
    if RequiredNamed(fs) {
      StrictFormRestricts(Obj(fs), v, other);
    } else {
      var gs, ps := StrictForm(fs, false), PropertiesOf(fs);
      PropertiesNormed(fs, false);
      GetClose(Walked(fs, false), "additionalProperties");
      assert Norm(Obj(fs), false) == Obj(gs);
      EachAt(gs, PropertiesOf(gs), v, other, "additionalProperties");
      forall k | Has(v.fields, k) ensures Has(ps, k) {
        ClosedMembers(PropertiesOf(gs), v.fields, other, k);
      }
      PlainAt(fs, "required");
      ForgottenName(Get(fs, "required").value.items, ps, v.fields);
      if Each(fs, ps, v, other) {
        EachAt(fs, ps, v, other, "required");
      }
    }
  }

  /** And some objects do come through: here the empty one. */
  lemma ForgottenRequirement(other: Other)
    ensures exists fs: Fields :: (
      && Dicts(Obj(fs)) && PlainFields(fs)
      && Accepts(Norm(Obj(fs), false), Obj(Empty), other) && !Accepts(Obj(fs), Obj(Empty), other))
  {
    var fs := Field("properties", Obj(Empty), Field("required", Arr(Item(Str("a"), Nil)), Empty));
    assert Dicts(Obj(fs)) && PlainFields(fs);
    assert Get(fs, "required") == Some(Arr(Item(Str("a"), Nil)));
    assert !Each(fs, PropertiesOf(fs), Obj(Empty), other);
    var gs := Field("properties", Obj(Empty),
                    Field("required", Arr(Nil), Field("additionalProperties", Bool(false), Empty)));
    assert StrictForm(fs, false) == gs;
    assert Each(gs, PropertiesOf(gs), Obj(Empty), other);
    assert Norm(Obj(fs), false) == Obj(gs);
  }
}
