/** Nullable normalisation: what the strict form accepts, the schema accepts once some
    null members are dropped. */
module SchemaNullable {
  import opened Options
  import opened Json
  import opened StrictSchema
  import opened SchemaMeaning
  import opened SchemaExact

  /** w is v without some of the null members of its objects, at any depth. */
  predicate Drops(v: Json, w: Json)
    decreases v
  {
    match v
    case Arr(items) => w.Arr? && ItemsDrop(items, w.items)
    case Obj(fields) => w.Obj? && MembersDrop(fields, w.fields)
    case _ => w == v
  }

  predicate ItemsDrop(xs: Items, ys: Items)
    decreases xs
  {
    match xs
    case Nil => ys.Nil?
    case Item(head, tail) => ys.Item? && Drops(head, ys.head) && ItemsDrop(tail, ys.tail)
  }

  predicate MembersDrop(ms: Fields, ns: Fields)
    decreases ms
  {
    match ms
    case Empty => ns.Empty?
    case Field(key, value, rest) =>
      || (value.Null? && MembersDrop(rest, ns))
      || (ns.Field? && ns.key == key && Drops(value, ns.value) && MembersDrop(rest, ns.rest))
  }

  /** The other keywords do not count members: minProperties, say, is none of them. */
  ghost predicate Insensitive(other: Other) {
    forall k, x, v, w :: Drops(v, w) && other(k, x, v) ==> other(k, x, w)
  }

  /** Where there is a choice of variants, no other keyword looks inside the value. */
  predicate Apart(s: Json)
    decreases s, 0
  {
    s.Obj? ==> ApartFields(s.fields) && (Has(s.fields, "anyOf") ==>
      !Has(s.fields, "properties") && !Has(s.fields, "required")
      && !Has(s.fields, "additionalProperties") && !Has(s.fields, "items"))
  }

  predicate ApartFields(fs: Fields)
    decreases fs, 0
  {
    fs.Field? ==> ApartKeyword(fs.key, fs.value) && ApartFields(fs.rest)
  }

  predicate ApartKeyword(k: string, x: Json)
    decreases x, 1
  {
    if k == "properties" then x.Obj? ==> ApartProperties(x.fields)
    else if k == "additionalProperties" || k == "items" then Apart(x)
    else if k == "anyOf" then x.Arr? ==> ApartVariants(x.items)
    else true
  }

  predicate ApartProperties(ps: Fields)
    decreases ps, 0
  {
    ps.Field? ==> Apart(ps.value) && ApartProperties(ps.rest)
  }

  predicate ApartVariants(variants: Items)
    decreases variants, 0
  {
    variants.Item? ==> Apart(variants.head) && ApartVariants(variants.tail)
  }

  /** A schema of the kind spoken of here. */
  predicate Fair(s: Json) { Dicts(s) && Plain(s) && Apart(s) }

  // ---- parts of a fair schema --------------------------------------------------

  lemma {:induction false} PartOf(fs: Fields, k: string)
    requires Has(fs, k) && FieldsDicts(fs) && PlainFields(fs) && ApartFields(fs)
    ensures var x := Get(fs, k).value;
      Size(x) < FieldsSize(fs) && Dicts(x) && PlainKeyword(k, x) && ApartKeyword(k, x)
  {
    if fs.key != k {
      PartOf(fs.rest, k);
    }
  }

  lemma {:induction false} PropertyOf(ps: Fields, k: string)
    requires Has(ps, k) && FieldsDicts(ps) && PlainProperties(ps) && ApartProperties(ps)
    ensures var x := Get(ps, k).value; Size(x) < FieldsSize(ps) && Fair(x)
  {
    if ps.key != k {
      PropertyOf(ps.rest, k);
    }
  }

  lemma {:induction false} DropsNothing(v: Json)
    ensures Drops(v, v)
    decreases v
  {
    match v
    case Arr(items) => ItemsDropNothing(items);
    case Obj(fields) => MembersDropNothing(fields);
    case _ =>
  }

  lemma {:induction false} ItemsDropNothing(xs: Items)
    ensures ItemsDrop(xs, xs)
    decreases xs
  {
    if xs.Item? {
      DropsNothing(xs.head);
      ItemsDropNothing(xs.tail);
    }
  }

  lemma {:induction false} MembersDropNothing(ms: Fields)
    ensures MembersDrop(ms, ms)
    decreases ms
  {
    if ms.Field? {
      DropsNothing(ms.value);
      MembersDropNothing(ms.rest);
    }
  }

  /** Dropping members keeps the type. */
  lemma DropsKeepsType(x: Json, v: Json, w: Json)
    requires Drops(v, w) && TypeOk(x, v)
    ensures TypeOk(x, w)
  {
    if x.Arr? {
      DropsKeepsTypes(x.items, v, w);
    }
  }

  lemma {:induction false} DropsKeepsTypes(ts: Items, v: Json, w: Json)
    requires Drops(v, w) && IsSomeType(ts, v)
    ensures IsSomeType(ts, w)
  {
    if !(ts.head.Str? && IsType(ts.head.s, v)) {
      DropsKeepsTypes(ts.tail, v, w);
    }
  }

  // ---- properties, looked up --------------------------------------------------

  lemma {:induction false} PropertyAt(ps: Fields, ms: Fields, other: Other)
    requires ms.Field? && PropertiesOk(ps, ms, other)
    ensures Has(ps, ms.key) ==> Accepts(Get(ps, ms.key).value, ms.value, other)
    ensures PropertiesOk(ps, ms.rest, other)
    decreases ps
  {
    if ps.Field? {
      PropertyAt(ps.rest, ms, other);
    }
  }

  lemma {:induction false} PropertiesCons(ps: Fields, k: string, w: Json, ns: Fields, other: Other)
    requires Keyed(ps) && PropertiesOk(ps, ns, other)
    requires Has(ps, k) ==> Accepts(Get(ps, k).value, w, other)
    ensures PropertiesOk(ps, Field(k, w, ns), other)
    decreases ps
  {
    if ps.Field? {
      PropertiesCons(ps.rest, k, w, ns, other);
    }
  }

  lemma {:induction false} PropertiesNil(ps: Fields, other: Other)
    ensures PropertiesOk(ps, Empty, other)
    decreases ps
  {
    if ps.Field? {
      PropertiesNil(ps.rest, other);
    }
  }

  /** A value that is not null meets the nullable form only by meeting the schema. */
  lemma NotNullUnwraps(s: Fields, m: Json, other: Other)
    requires Accepts(MakeNullable(s), m, other) && !m.Null?
    ensures Accepts(Obj(s), m, other)
  {
    NullableReads(s, m, other);
  }

  lemma {:induction false} HasAll(names: Items, ms: Fields, ns: Fields)
    requires RequiredOk(names, ms) && forall k :: Contains(names, Str(k)) && Has(ms, k) ==> Has(ns, k)
    ensures RequiredOk(names, ns)
  {
    if names.Item? {
      forall k | Contains(names.tail, Str(k)) && Has(ms, k) ensures Has(ns, k) {
        assert Contains(names, Str(k));
      }
      HasAll(names.tail, ms, ns);
    }
  }

  // ---- the restored value -----------------------------------------------------

  /** Whatever the nullable strict form accepts, the schema accepts after dropping some of
      its null members. */
  lemma {:induction false} NullableFormRestricts(s: Json, v: Json, other: Other) returns (w: Json)
    requires Fair(s) && Insensitive(other) && Accepts(Norm(s, true), v, other)
    ensures Drops(v, w) && Accepts(s, w, other)
    decreases Size(s), 2
  {
    w := v;
    DropsNothing(v);
    if s.Obj? {
      var fs := s.fields;
      if Has(fs, "anyOf") {
        w := RestoreChoice(fs, v, other);
      } else {
        w := RestoreShape(fs, v, other);
      }
    }
  }

  lemma {:induction false} RestoreChoice(fs: Fields, v: Json, other: Other) returns (w: Json)
    requires Fair(Obj(fs)) && Insensitive(other) && Accepts(Norm(Obj(fs), true), v, other) && Has(fs, "anyOf")
    ensures Drops(v, w) && Accepts(Obj(fs), w, other)
    decreases Size(Obj(fs)), 1
  {
    var gs, qs, x := StrictForm(fs, true), PropertiesOf(StrictForm(fs, true)), Get(fs, "anyOf").value;
    PartOf(fs, "anyOf");
    KeywordSurvives(fs, "anyOf", true);
    EachAt(gs, qs, v, other, "anyOf");
    assert Norm(x, true) == Arr(NormItems(x.items, true));
    w := RestoreSome(x.items, v, other);
    forall k | Has(fs, k) ensures Keyword(k, Get(fs, k).value, PropertiesOf(fs), w, other) {
      if k != "anyOf" {
        KeywordRestored(fs, k, v, w, other);
      }
    }
    EachFrom(fs, PropertiesOf(fs), w, other);
  }

  lemma {:induction false} RestoreSome(variants: Items, v: Json, other: Other) returns (w: Json)
    requires ItemsDicts(variants) && PlainVariants(variants) && ApartVariants(variants) && Insensitive(other)
    requires SomeAccepts(NormItems(variants, true), v, other)
    ensures Drops(v, w) && SomeAccepts(variants, w, other)
    decreases ItemsSize(variants), 2
  {
    if Accepts(Norm(variants.head, true), v, other) {
      w := NullableFormRestricts(variants.head, v, other);
    } else {
      w := RestoreSome(variants.tail, v, other);
    }
  }

  /** The keywords that do not look inside the value carry over. */
  lemma KeywordRestored(fs: Fields, k: string, v: Json, w: Json, other: Other)
    requires Fair(Obj(fs)) && Insensitive(other) && Accepts(Norm(Obj(fs), true), v, other) && Drops(v, w) && Has(fs, k)
    requires k != "properties" && k != "required" && k != "additionalProperties" && k != "items" && k != "anyOf"
    ensures Keyword(k, Get(fs, k).value, PropertiesOf(fs), w, other)
  {
    if k != "default" {
      var x := Get(fs, k).value;
      PartOf(fs, k);
      KeywordSurvives(fs, k, true);
      EachAt(StrictForm(fs, true), PropertiesOf(StrictForm(fs, true)), v, other, k);
      StrictIsFixed(x, true);
      if k == "type" {
        DropsKeepsType(x, v, w);
      }
    }
  }

  predicate Shaping(k: string) {
    k == "properties" || k == "required" || k == "additionalProperties" || k == "items"
  }

  /** The keywords that look inside the value. */
  ghost predicate ShapeOk(fs: Fields, w: Json, other: Other) {
    forall k :: Has(fs, k) && Shaping(k) ==> Keyword(k, Get(fs, k).value, PropertiesOf(fs), w, other)
  }

  /** Objects lose null optional members, and their other members and the elements of
      arrays are restored in turn. */
  lemma {:induction false} RestoreShape(fs: Fields, v: Json, other: Other) returns (w: Json)
    requires Fair(Obj(fs)) && Insensitive(other) && Accepts(Norm(Obj(fs), true), v, other) && !Has(fs, "anyOf")
    ensures Drops(v, w) && Accepts(Obj(fs), w, other)
    decreases Size(Obj(fs)), 1
  {
    w := v;
    DropsNothing(v);
    if v.Obj? && HasProperties(fs) {
      var ns := RestoreObject(fs, v.fields, other);
      w := Obj(ns);
    } else if v.Obj? {
      var ns := RestoreMap(fs, v.fields, other);
      w := Obj(ns);
    } else if v.Arr? {
      var ys := RestoreArray(fs, v.items, other);
      w := Arr(ys);
    }
    assert ShapeOk(fs, w, other);
    forall k | Has(fs, k) ensures Keyword(k, Get(fs, k).value, PropertiesOf(fs), w, other) {
      if !Shaping(k) {
        KeywordRestored(fs, k, v, w, other);
      }
    }
    EachFrom(fs, PropertiesOf(fs), w, other);
  }

  /** What the strict form demands under the key of a keyword. */
  lemma StrictKeyword(fs: Fields, k: string, v: Json, other: Other)
    requires Fair(Obj(fs)) && Accepts(Norm(Obj(fs), true), v, other) && Has(fs, k) && k != "default"
    ensures Survives(fs, k, Get(fs, k).value, true)
    ensures Has(StrictForm(fs, true), k)
    ensures Keyword(k, Get(StrictForm(fs, true), k).value, PropertiesOf(StrictForm(fs, true)), v, other)
    ensures Size(Get(fs, k).value) < FieldsSize(fs) && Dicts(Get(fs, k).value)
    ensures PlainKeyword(k, Get(fs, k).value) && ApartKeyword(k, Get(fs, k).value)
  {
    KeywordSurvives(fs, k, true);
    EachAt(StrictForm(fs, true), PropertiesOf(StrictForm(fs, true)), v, other, k);
    PartOf(fs, k);
  }

  lemma {:induction false} RestoreArray(fs: Fields, xs: Items, other: Other) returns (ys: Items)
    requires Fair(Obj(fs)) && Insensitive(other) && Accepts(Norm(Obj(fs), true), Arr(xs), other)
    ensures ItemsDrop(xs, ys) && ShapeOk(fs, Arr(ys), other)
    decreases Size(Obj(fs)), 0
  {
    ys := xs;
    ItemsDropNothing(xs);
    if Has(fs, "items") {
      StrictKeyword(fs, "items", Arr(xs), other);
      ys := RestoreElements(Get(fs, "items").value, xs, other);
    }
  }

  lemma {:induction false} RestoreElements(s: Json, xs: Items, other: Other) returns (ys: Items)
    requires Fair(s) && Insensitive(other) && ElementsOk(Norm(s, true), xs, other)
    ensures ItemsDrop(xs, ys) && ElementsOk(s, ys, other)
    decreases Size(s), 3, xs
  {
    ys := Nil;
    if xs.Item? {
      var y := NullableFormRestricts(s, xs.head, other);
      var tail := RestoreElements(s, xs.tail, other);
      ys := Item(y, tail);
    }
  }

  /** An object whose schema names no properties keeps all its members. */
  lemma {:induction false} RestoreMap(fs: Fields, ms: Fields, other: Other) returns (ns: Fields)
    requires Fair(Obj(fs)) && Insensitive(other) && Accepts(Norm(Obj(fs), true), Obj(ms), other) && !HasProperties(fs)
    ensures MembersDrop(ms, ns) && ShapeOk(fs, Obj(ns), other)
    decreases Size(Obj(fs)), 0
  {
    ns := ms;
    MembersDropNothing(ms);
    PropertiesNormed(fs, true);
    if Has(fs, "additionalProperties") {
      StrictKeyword(fs, "additionalProperties", Obj(ms), other);
      var x := Get(fs, "additionalProperties").value;
      if Get(StrictForm(fs, true), "additionalProperties") == Some(Norm(x, true)) {
        ns := RestoreRest(x, ms, other);
      } else {
        RestFromClosed(x, Empty, PropertiesOf(StrictForm(fs, true)), ms, other);
      }
    }
    if Has(fs, "required") {
      StrictKeyword(fs, "required", Obj(ms), other);
      HasAll(Get(fs, "required").value.items, ms, ns);
    }
    if Has(fs, "properties") {
      PartOf(fs, "properties");
    }
  }

  lemma {:induction false} RestoreRest(s: Json, ms: Fields, other: Other) returns (ns: Fields)
    requires Fair(s) && Insensitive(other) && RestOk(Norm(s, true), Empty, ms, other)
    ensures MembersDrop(ms, ns) && RestOk(s, Empty, ns, other)
    ensures forall k :: Has(ms, k) <==> Has(ns, k)
    decreases Size(s), 3, ms
  {
    ns := Empty;
    if ms.Field? {
      var w := NullableFormRestricts(s, ms.value, other);
      var rest := RestoreRest(s, ms.rest, other);
      ns := Field(ms.key, w, rest);
      forall k ensures Has(ms, k) <==> Has(ns, k) {
        assert Has(ms.rest, k) <==> Has(rest, k);
      }
    }
  }

  lemma {:induction false} RestoreObject(fs: Fields, ms: Fields, other: Other) returns (ns: Fields)
    requires Fair(Obj(fs)) && Insensitive(other) && Accepts(Norm(Obj(fs), true), Obj(ms), other) && HasProperties(fs)
    ensures MembersDrop(ms, ns) && ShapeOk(fs, Obj(ns), other)
    decreases Size(Obj(fs)), 0
  {
    var required, ps, gs := Get(fs, "required"), PropertiesOf(fs), StrictForm(fs, true);
    PropertiesNormed(fs, true);
    StrictKeyword(fs, "properties", Obj(ms), other);
    GetClose(Walked(fs, true), "additionalProperties");
    EachAt(gs, PropertiesOf(gs), Obj(ms), other, "additionalProperties");
    ns := RestoreMembers(ps, required, ms, other);
    if Has(fs, "required") {
      PartOf(fs, "required");
      RequiredMembers(fs, ms, ns, other);
    }
    if Has(fs, "additionalProperties") {
      NothingElse(Get(fs, "additionalProperties").value, ps, ns, other);
    }
  }

  lemma {:induction false} NothingElse(x: Json, ps: Fields, ns: Fields, other: Other)
    requires forall k :: Has(ns, k) ==> Has(ps, k)
    ensures RestOk(x, ps, ns, other)
    decreases ns
  {
    if ns.Field? {
      assert Has(ns, ns.key);
      forall k | Has(ns.rest, k) ensures Has(ps, k) {
        assert Has(ns, k);
      }
      NothingElse(x, ps, ns.rest, other);
    }
  }

  lemma RequiredMembers(fs: Fields, ms: Fields, ns: Fields, other: Other)
    requires Fair(Obj(fs)) && Accepts(Norm(Obj(fs), true), Obj(ms), other) && HasProperties(fs)
    requires Has(fs, "required") && Get(fs, "required").value.Arr?
    requires forall k :: InRequired(Get(fs, "required"), k) && Has(ms, k) ==> Has(ns, k)
    ensures RequiredOk(Get(fs, "required").value.items, ns)
  {
    var names := Get(fs, "required").value.items;
    PropertiesNormed(fs, true);
    StrictKeyword(fs, "required", Obj(ms), other);
    RequiredFromStrict(names, PropertiesOf(fs), PropertiesOf(StrictForm(fs, true)), ms);
    HasAll(names, ms, ns);
  }

  lemma {:induction false} RestoreMembers(ps: Fields, required: Option<Json>, ms: Fields,
                                          other: Other) returns (ns: Fields)
    requires Keyed(ps) && FieldsDicts(ps) && PlainProperties(ps) && ApartProperties(ps) && Insensitive(other)
    requires PropertiesOk(NormProperties(ps, required, true), ms, other)
    requires RestOk(Bool(false), NormProperties(ps, required, true), ms, other)
    ensures MembersDrop(ms, ns) && PropertiesOk(ps, ns, other)
    ensures forall k :: Has(ns, k) ==> Has(ps, k)
    ensures forall k :: InRequired(required, k) && Has(ms, k) ==> Has(ns, k)
    decreases FieldsSize(ps), 3, ms
  {
    ns := Empty;
    PropertiesNil(ps, other);
    if ms.Field? {
      var qs := NormProperties(ps, required, true);
      PropertyAt(qs, ms, other);
      ns := RestoreMembers(ps, required, ms.rest, other);
      if !ms.value.Null? || InRequired(required, ms.key) {
        GetNormProperties(ps, required, true, ms.key);
        PropertyOf(ps, ms.key);
        var s := Get(ps, ms.key).value;
        MemberUnwraps(s, InRequired(required, ms.key), ms.value, other);
        var w := NullableFormRestricts(s, ms.value, other);
        PropertiesCons(ps, ms.key, w, ns, other);
        ns := Field(ms.key, w, ns);
      }
    }
  }

  lemma MemberUnwraps(s: Json, kept: bool, m: Json, other: Other)
    requires Accepts(NormProperty(s, kept, true), m, other) && (kept || !m.Null?)
    ensures Accepts(Norm(s, true), m, other)
  {
    if !kept && Norm(s, true).Obj? {
      NotNullUnwraps(Norm(s, true).fields, m, other);
    }
  }
}
