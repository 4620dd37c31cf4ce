/** The strict form of a JSON schema: properties all required, objects closed, defaults
    dropped; and, on request, properties that were optional made nullable instead. */
module StrictSchema {
  import opened Options
  import opened Json

  predicate AllowsNull(s: Fields)
    decreases s, 1
  {
    TypeAllowsNull(s) || VariantAllowsNull(s)
  }

  predicate TypeAllowsNull(s: Fields) {
    var t := Get(s, "type");
    t.Some? && (t.value == Str("null") || (t.value.Arr? && Contains(t.value.items, Str("null"))))
  }

  /** Some object among the anyOf variants allows null; only the first anyOf counts. */
  predicate VariantAllowsNull(s: Fields)
    decreases s, 0
  {
    match s
    case Empty => false
    case Field(key, value, rest) =>
      if key == "anyOf" then value.Arr? && SomeAllowsNull(value.items) else VariantAllowsNull(rest)
  }

  predicate SomeAllowsNull(variants: Items)
    decreases variants
  {
    match variants
    case Nil => false
    case Item(head, tail) => (head.Obj? && AllowsNull(head.fields)) || SomeAllowsNull(tail)
  }

  const NULL_TYPE := Obj(Field("type", Str("null"), Empty))

  function MakeNullable(s: Fields): Json {
    if AllowsNull(s) then Obj(s)
    else Obj(Field("anyOf", Arr(Item(Obj(s), Item(NULL_TYPE, Nil))), Empty))
  }

  /** Membership in set(required), for whatever that is the set of. */
  predicate InRequired(required: Option<Json>, name: string) {
    match required
    case Some(Arr(items)) => Contains(items, Str(name))
    case Some(Str(s)) => |name| == 1 && name[0] in s
    case Some(Obj(fields)) => Has(fields, name)
    case _ => false
  }

  predicate HasProperties(fs: Fields) {
    var ps := Get(fs, "properties");
    ps.Some? && ps.value.Obj?
  }

  function PropertiesOf(fs: Fields): Fields {
    if HasProperties(fs) then Get(fs, "properties").value.fields else Empty
  }

  /** All properties required and nothing else allowed, where there are properties; and
      nothing else allowed wherever the type is object. */
  function Close(fs: Fields): Fields {
    var closed := if HasProperties(fs)
      then Put(Put(fs, "required", Arr(Names(PropertiesOf(fs)))), "additionalProperties", Bool(false)) else fs;
    if Get(closed, "type") == Some(Str("object")) then Put(closed, "additionalProperties", Bool(false)) else closed
  }

  function Norm(v: Json, nullable: bool): Json
    decreases v, 0
  {
    match v
    case Arr(items) => Arr(NormItems(items, nullable))
    case Obj(fields) => Obj(Close(NormFields(fields, Get(fields, "required"), nullable)))
    case _ => v
  }

  function NormItems(xs: Items, nullable: bool): Items {
    match xs
    case Nil => Nil
    case Item(head, tail) => Item(Norm(head, nullable), NormItems(tail, nullable))
  }

  function NormFields(fs: Fields, required: Option<Json>, nullable: bool): Fields {
    match fs
    case Empty => Empty
    case Field(key, value, rest) =>
      if key == "default" then NormFields(rest, required, nullable)
      else Field(key, NormValue(key, value, required, nullable), NormFields(rest, required, nullable))
  }

  function NormValue(key: string, x: Json, required: Option<Json>, nullable: bool): Json
    decreases x, 1
  {
    if key == "required" then x
    else if key == "properties" then
      if x.Obj? then Obj(NormProperties(x.fields, required, nullable)) else x
    else Norm(x, nullable)
  }

  function NormProperties(ps: Fields, required: Option<Json>, nullable: bool): Fields {
    match ps
    case Empty => Empty
    case Field(name, value, rest) =>
      Field(name, NormProperty(value, InRequired(required, name), nullable), NormProperties(rest, required, nullable))
  }

  function NormProperty(x: Json, kept: bool, nullable: bool): Json
    decreases x, 1
  {
    var strict := Norm(x, nullable);
    if nullable && !kept && strict.Obj? then MakeNullable(strict.fields) else strict
  }

  // ---- strict everywhere, and a fixed point -----------------------------------

  predicate Closed(fs: Fields) {
    && (HasProperties(fs) ==>
          && Get(fs, "required") == Some(Arr(Names(PropertiesOf(fs))))
          && Get(fs, "additionalProperties") == Some(Bool(false)))
    && (Get(fs, "type") == Some(Str("object")) ==> Get(fs, "additionalProperties") == Some(Bool(false)))
  }

  /** No default, and every reached object closed: a property list requires all its names
      in order and allows no others. */
  predicate Strict(v: Json)
    decreases v, 0
  {
    match v
    case Arr(items) => StrictItems(items)
    case Obj(fields) => Closed(fields) && StrictFields(fields)
    case _ => true
  }

  predicate StrictItems(xs: Items) {
    xs.Item? ==> Strict(xs.head) && StrictItems(xs.tail)
  }

  predicate StrictFields(fs: Fields) {
    fs.Field? ==> fs.key != "default" && StrictValue(fs.key, fs.value) && StrictFields(fs.rest)
  }

  predicate StrictValue(key: string, x: Json)
    decreases x, 1
  {
    if key == "required" then true
    else if key == "properties" then x.Obj? ==> StrictProperties(x.fields)
    else Strict(x)
  }

  predicate StrictProperties(ps: Fields) {
    ps.Field? ==> Strict(ps.value) && StrictProperties(ps.rest)
  }

  /** What each key holds once an object is closed. */
  function ClosedAt(fs: Fields, k: string): Option<Json> {
    if k == "required" && HasProperties(fs) then Some(Arr(Names(PropertiesOf(fs))))
    else if k == "additionalProperties" && (HasProperties(fs) || Get(fs,
        "type") == Some(Str("object"))) then Some(Bool(false))
    else Get(fs, k)
  }

  lemma GetClose(fs: Fields, k: string)
    ensures Get(Close(fs), k) == ClosedAt(fs, k)
  {
    var names := Arr(Names(PropertiesOf(fs)));
    var one := Put(fs, "required", names);
    var closed := if HasProperties(fs) then Put(one, "additionalProperties", Bool(false)) else fs;
    GetPut(fs, "required", names, k);
    GetPut(fs, "required", names, "type");
    GetPut(one, "additionalProperties", Bool(false), k);
    GetPut(one, "additionalProperties", Bool(false), "type");
    GetPut(closed, "additionalProperties", Bool(false), k);
  }

  lemma CloseCloses(fs: Fields)
    ensures Closed(Close(fs))
  {
    GetClose(fs, "properties");
    GetClose(fs, "required");
    GetClose(fs, "additionalProperties");
    GetClose(fs, "type");
  }

  lemma CloseNothing(fs: Fields)
    requires Closed(fs)
    ensures Close(fs) == fs
  {
    if HasProperties(fs) {
      PutSame(fs, "required", Arr(Names(PropertiesOf(fs))));
    }
    if Get(fs, "additionalProperties") == Some(Bool(false)) {
      PutSame(fs, "additionalProperties", Bool(false));
    }
  }

  lemma {:induction false} PutStrict(fs: Fields, k: string, x: Json)
    requires StrictFields(fs) && k != "default" && StrictValue(k, x)
    ensures StrictFields(Put(fs, k, x))
  {
    if fs.Field? && fs.key != k {
      PutStrict(fs.rest, k, x);
    }
  }

  lemma CloseStrict(fs: Fields)
    requires StrictFields(fs)
    ensures StrictFields(Close(fs))
  {
    if HasProperties(fs) {
      PutStrict(fs, "required", Arr(Names(PropertiesOf(fs))));
      PutStrict(Put(fs, "required", Arr(Names(PropertiesOf(fs)))), "additionalProperties", Bool(false));
      PutStrict(Put(Put(fs, "required", Arr(Names(PropertiesOf(fs)))), "additionalProperties", Bool(false)),
                "additionalProperties", Bool(false));
    } else {
      PutStrict(fs, "additionalProperties", Bool(false));
    }
  }

  /** The result is strict everywhere. */
  lemma {:induction false} NormIsStrict(v: Json, nullable: bool)
    ensures Strict(Norm(v, nullable))
    decreases v, 0
  {
    match v
    case Arr(items) => NormItemsStrict(items, nullable);
    case Obj(fields) =>
      var walked := NormFields(fields, Get(fields, "required"), nullable);
      NormFieldsStrict(fields, Get(fields, "required"), nullable);
      CloseStrict(walked);
      CloseCloses(walked);
    case _ =>
  }

  lemma {:induction false} NormItemsStrict(xs: Items, nullable: bool)
    ensures StrictItems(NormItems(xs, nullable))
    decreases xs
  {
    if xs.Item? {
      NormIsStrict(xs.head, nullable);
      NormItemsStrict(xs.tail, nullable);
    }
  }

  lemma {:induction false} NormFieldsStrict(fs: Fields, required: Option<Json>, nullable: bool)
    ensures StrictFields(NormFields(fs, required, nullable))
    decreases fs
  {
    if fs.Field? {
      NormFieldsStrict(fs.rest, required, nullable);
      if fs.key == "properties" && fs.value.Obj? {
        NormPropertiesStrict(fs.value.fields, required, nullable);
      } else {
        NormIsStrict(fs.value, nullable);
      }
    }
  }

  lemma {:induction false} NormPropertiesStrict(ps: Fields, required: Option<Json>, nullable: bool)
    ensures StrictProperties(NormProperties(ps, required, nullable))
    decreases ps
  {
    if ps.Field? {
      NormIsStrict(ps.value, nullable);
      NormPropertiesStrict(ps.rest, required, nullable);
      if Norm(ps.value, nullable).Obj? {
        MakeNullableStrict(Norm(ps.value, nullable).fields);
      }
    }
  }

  lemma MakeNullableStrict(s: Fields)
    requires Strict(Obj(s))
    ensures Strict(MakeNullable(s))
  {
    var variants := Item(Obj(s), Item(NULL_TYPE, Nil));
    assert Strict(NULL_TYPE);
    assert StrictItems(Item(NULL_TYPE, Nil)) && StrictItems(variants);
    var wrapped := Field("anyOf", Arr(variants), Empty);
    assert StrictFields(wrapped);
    assert Get(wrapped, "type") == None && Get(wrapped, "properties") == None;
  }

  // ---- dicts stay dicts -------------------------------------------------------

  lemma {:induction false} NormDicts(v: Json, nullable: bool)
    requires Dicts(v)
    ensures Dicts(Norm(v, nullable))
    decreases v, 0
  {
    match v
    case Arr(items) => NormItemsDicts(items, nullable);
    case Obj(fields) =>
      NormFieldsDicts(fields, Get(fields, "required"), nullable);
      CloseDicts(NormFields(fields, Get(fields, "required"), nullable));
    case _ =>
  }

  lemma {:induction false} NormItemsDicts(xs: Items, nullable: bool)
    requires ItemsDicts(xs)
    ensures ItemsDicts(NormItems(xs, nullable))
    decreases xs
  {
    if xs.Item? {
      NormDicts(xs.head, nullable);
      NormItemsDicts(xs.tail, nullable);
    }
  }

  lemma {:induction false} NormFieldsDicts(fs: Fields, required: Option<Json>, nullable: bool)
    requires Keyed(fs) && FieldsDicts(fs)
    ensures Keyed(NormFields(fs, required, nullable)) && FieldsDicts(NormFields(fs, required, nullable))
    decreases fs
  {
    if fs.Field? {
      NormFieldsDicts(fs.rest, required, nullable);
      GetNorm(fs.rest, required, nullable, fs.key);
      if fs.key == "properties" && fs.value.Obj? {
        NormPropertiesDicts(fs.value.fields, required, nullable);
      } else {
        NormDicts(fs.value, nullable);
      }
    }
  }

  lemma {:induction false} NormPropertiesDicts(ps: Fields, required: Option<Json>, nullable: bool)
    requires Keyed(ps) && FieldsDicts(ps)
    ensures Keyed(NormProperties(ps, required, nullable)) && FieldsDicts(NormProperties(ps, required, nullable))
    decreases ps
  {
    if ps.Field? {
      NormDicts(ps.value, nullable);
      NormPropertiesDicts(ps.rest, required, nullable);
      GetNormProperties(ps.rest, required, nullable, ps.key);
      var variants := Item(Norm(ps.value, nullable), Item(NULL_TYPE, Nil));
      assert Dicts(NULL_TYPE) && ItemsDicts(Item(NULL_TYPE, Nil)) && ItemsDicts(variants);
      assert Dicts(Obj(Field("anyOf", Arr(variants), Empty)));
    }
  }

  lemma {:induction false} PutDicts(fs: Fields, k: string, x: Json)
    requires FieldsDicts(fs) && Dicts(x)
    ensures FieldsDicts(Put(fs, k, x))
  {
    if fs.Field? && fs.key != k {
      PutDicts(fs.rest, k, x);
    }
  }

  lemma {:induction false} NamesDicts(fs: Fields)
    ensures ItemsDicts(Names(fs))
  {
    if fs.Field? {
      NamesDicts(fs.rest);
    }
  }

  lemma CloseDicts(fs: Fields)
    requires Keyed(fs) && FieldsDicts(fs)
    ensures Keyed(Close(fs)) && FieldsDicts(Close(fs))
  {
    var names := Arr(Names(PropertiesOf(fs)));
    NamesDicts(PropertiesOf(fs));
    var one := Put(fs, "required", names);
    PutKeyed(fs, "required", names);
    PutDicts(fs, "required", names);
    PutKeyed(one, "additionalProperties", Bool(false));
    PutDicts(one, "additionalProperties", Bool(false));
    var closed := if HasProperties(fs) then Put(one, "additionalProperties", Bool(false)) else fs;
    PutKeyed(closed, "additionalProperties", Bool(false));
    PutDicts(closed, "additionalProperties", Bool(false));
  }

  /** What each key holds after the walk over the fields. */
  lemma {:induction false} GetNorm(fs: Fields, required: Option<Json>, nullable: bool, k: string)
    ensures Get(NormFields(fs, required, nullable), k) ==
      if k == "default" || !Has(fs, k) then None else Some(NormValue(k, Get(fs, k).value, required, nullable))
  {
    if fs.Field? {
      GetNorm(fs.rest, required, nullable, k);
    }
  }

  lemma {:induction false} GetNormProperties(ps: Fields, required: Option<Json>, nullable: bool, k: string)
    ensures Get(NormProperties(ps, required, nullable), k) ==
      if !Has(ps, k) then None else Some(NormProperty(Get(ps, k).value, InRequired(required, k), nullable))
  {
    if ps.Field? {
      GetNormProperties(ps.rest, required, nullable, k);
    }
  }

  // ---- exactly the strict schemas are fixed -----------------------------------

  lemma {:induction false} StrictIsFixed(v: Json, nullable: bool)
    requires Dicts(v) && Strict(v)
    ensures Norm(v, nullable) == v
    decreases v, 0
  {
    match v
    case Arr(items) => StrictItemsFixed(items, nullable);
    case Obj(fields) =>
      forall name | Has(PropertiesOf(fields), name) ensures InRequired(Get(fields, "required"), name) {
        NamesAre(PropertiesOf(fields), name);
      }
      StrictFieldsFixed(fields, PropertiesOf(fields), Get(fields, "required"), nullable);
      CloseNothing(fields);
    case _ =>
  }

  lemma {:induction false} StrictItemsFixed(xs: Items, nullable: bool)
    requires ItemsDicts(xs) && StrictItems(xs)
    ensures NormItems(xs, nullable) == xs
    decreases xs
  {
    if xs.Item? {
      StrictIsFixed(xs.head, nullable);
      StrictItemsFixed(xs.tail, nullable);
    }
  }

  lemma {:induction false} StrictFieldsFixed(fs: Fields, ps: Fields, required: Option<Json>, nullable: bool)
    requires Keyed(fs) && FieldsDicts(fs) && StrictFields(fs)
    requires HasProperties(fs) ==> ps == PropertiesOf(fs)
    requires forall name :: Has(ps, name) ==> InRequired(required, name)
    ensures NormFields(fs, required, nullable) == fs
    decreases fs
  {
    if fs.Field? {
      if fs.key == "properties" {
        if fs.value.Obj? {
          StrictPropertiesFixed(ps, required, nullable);
        }
      } else if fs.key != "required" {
        StrictIsFixed(fs.value, nullable);
      }
      StrictFieldsFixed(fs.rest, ps, required, nullable);
    }
  }

  lemma {:induction false} StrictPropertiesFixed(ps: Fields, required: Option<Json>, nullable: bool)
    requires Keyed(ps) && FieldsDicts(ps) && StrictProperties(ps)
    requires forall name :: Has(ps, name) ==> InRequired(required, name)
    ensures NormProperties(ps, required, nullable) == ps
    decreases ps
  {
    if ps.Field? {
      StrictIsFixed(ps.value, nullable);
      forall name | Has(ps.rest, name) ensures InRequired(required, name) {
        assert Has(ps, name);
      }
      assert Has(ps, ps.key);
      StrictPropertiesFixed(ps.rest, required, nullable);
    }
  }

  /** A schema is strict exactly when normalising leaves it as it is. */
  lemma StrictIff(v: Json, nullable: bool)
    requires Dicts(v)
    ensures Strict(v) <==> Norm(v, nullable) == v
  {
    NormIsStrict(v, nullable);
    if Strict(v) {
      StrictIsFixed(v, nullable);
    }
  }

  /** Normalising again, with either setting, changes nothing. */
  lemma NormTwice(v: Json, nullable: bool, again: bool)
    requires Dicts(v)
    ensures Norm(Norm(v, nullable), again) == Norm(v, nullable)
  {
    NormIsStrict(v, nullable);
    NormDicts(v, nullable);
    StrictIsFixed(Norm(v, nullable), again);
  }
}
