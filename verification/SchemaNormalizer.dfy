/** The normalisation as it runs: a new dict, assigned to key by key. */
module SchemaNormalizer {
  import opened Options
  import opened Json
  import opened StrictSchema

  /** set(required) does not raise: there is something to iterate over, and no list or
      dict among it. */
  predicate Hashable(required: Option<Json>) {
    match required
    case None => true
    case Some(Arr(items)) => NoContainers(items)
    case Some(Str(_)) => true
    case Some(Obj(_)) => true
    case _ => false
  }

  predicate NoContainers(xs: Items) {
    xs.Item? ==> !xs.head.Arr? && !xs.head.Obj? && NoContainers(xs.tail)
  }

  /** Normalising v raises nothing. */
  predicate Runs(v: Json)
    decreases Size(v)
  {
    match v
    case Arr(items) => ItemsRun(items)
    case Obj(fields) =>
      && (HasProperties(fields) ==>
            (GetSmaller(fields, "properties");
             Hashable(Get(fields, "required")) && PropertiesRun(PropertiesOf(fields))))
      && OthersRun(fields, HasProperties(fields))
    case _ => true
  }

  predicate ItemsRun(xs: Items)
    decreases ItemsSize(xs)
  {
    xs.Item? ==> Runs(xs.head) && ItemsRun(xs.tail)
  }

  predicate PropertiesRun(ps: Fields)
    decreases FieldsSize(ps)
  {
    ps.Field? ==> Runs(ps.value) && PropertiesRun(ps.rest)
  }

  /** The values walked over; additionalProperties is not, once it has been overwritten. */
  predicate OthersRun(fs: Fields, closing: bool)
    decreases FieldsSize(fs)
  {
    fs.Field? ==>
      && (fs.key == "default" || Skipped(fs.key) || (closing && fs.key == "additionalProperties") || Runs(fs.value))
      && OthersRun(fs.rest, closing)
  }

  predicate Skipped(k: string) { k == "properties" || k == "required" }

  // ---- dicts as concatenations ------------------------------------------------

  function Join(a: Fields, b: Fields): Fields {
    match a case Empty => b case Field(key, value, rest) => Field(key, value, Join(rest, b))
  }

  function JoinItems(a: Items, b: Items): Items {
    match a case Nil => b case Item(head, tail) => Item(head, JoinItems(tail, b))
  }

  /** The second loop: every value but those under the skipped keys. */
  function Rewrite(fs: Fields, nullable: bool): Fields {
    match fs
    case Empty => Empty
    case Field(key, value, rest) => Field(key, Rewritten(key, value, nullable), Rewrite(rest, nullable))
  }

  function Rewritten(k: string, x: Json, nullable: bool): Json {
    if Skipped(k) then x else Norm(x, nullable)
  }

  lemma {:induction false} JoinAssociates(a: Fields, b: Fields, c: Fields)
    ensures Join(Join(a, b), c) == Join(a, Join(b, c))
  {
    if a.Field? {
      JoinAssociates(a.rest, b, c);
    }
  }

  lemma {:induction false} JoinItemsAssociates(a: Items, b: Items, c: Items)
    ensures JoinItems(JoinItems(a, b), c) == JoinItems(a, JoinItems(b, c))
  {
    if a.Item? {
      JoinItemsAssociates(a.tail, b, c);
    }
  }

  lemma {:induction false} JoinItemsNil(a: Items)
    ensures JoinItems(a, Nil) == a
  {
    if a.Item? {
      JoinItemsNil(a.tail);
    }
  }

  lemma {:induction false} JoinEmpty(a: Fields)
    ensures Join(a, Empty) == a
  {
    if a.Field? {
      JoinEmpty(a.rest);
    }
  }

  lemma {:induction false} RewriteJoin(a: Fields, b: Fields, nullable: bool)
    ensures Rewrite(Join(a, b), nullable) == Join(Rewrite(a, nullable), Rewrite(b, nullable))
  {
    if a.Field? {
      RewriteJoin(a.rest, b, nullable);
    }
  }

  lemma {:induction false} PutJoin(a: Fields, b: Fields, k: string, y: Json)
    requires !Has(a, k)
    ensures Put(Join(a, b), k, y) == Join(a, Put(b, k, y))
  {
    if a.Field? {
      PutJoin(a.rest, b, k, y);
    }
  }

  lemma {:induction false} HasRewrite(a: Fields, k: string, nullable: bool)
    ensures Has(Rewrite(a, nullable), k) <==> Has(a, k)
  {
    if a.Field? {
      HasRewrite(a.rest, k, nullable);
    }
  }

  lemma {:induction false} HasJoin(a: Fields, b: Fields, k: string)
    ensures Has(Join(a, b), k) <==> Has(a, k) || Has(b, k)
    ensures Keyed(Join(a, b)) && Has(b, k) ==> !Has(a, k)
  {
    if a.Field? {
      HasJoin(a.rest, b, k);
      if a.key == k {
        HasJoin(a.rest, b, a.key);
      }
    }
  }

  lemma {:induction false} PutRewrite(fs: Fields, k: string, x: Json, nullable: bool)
    ensures Rewrite(Put(fs, k, x), nullable) == Put(Rewrite(fs, nullable), k, Rewritten(k, x, nullable))
  {
    if fs.Field? && fs.key != k {
      PutRewrite(fs.rest, k, x, nullable);
    }
  }

  /** Without properties, the second loop alone is the walk. */
  lemma {:induction false} RewriteIsWalk(fs: Fields, required: Option<Json>, nullable: bool)
    requires Keyed(fs) && !HasProperties(fs)
    ensures Rewrite(Without(fs, "default"), nullable) == NormFields(fs, required, nullable)
  {
    if fs.Field? {
      if fs.key == "properties" {
        assert !HasProperties(fs.rest);
      }
      RewriteIsWalk(fs.rest, required, nullable);
    }
  }

  /** With properties, they are assigned first. */
  lemma {:induction false} RewriteIsWalkToo(fs: Fields, required: Option<Json>, nullable: bool)
    requires Keyed(fs) && HasProperties(fs)
    ensures Rewrite(Put(Without(fs, "default"), "properties",
                        Obj(NormProperties(PropertiesOf(fs), required, nullable))), nullable)
      == NormFields(fs, required, nullable)
  {
    if fs.key == "properties" {
      RewriteIsWalk(fs.rest, required, nullable);
    } else {
      RewriteIsWalkToo(fs.rest, required, nullable);
    }
  }

  lemma {:induction false} WithoutKeyed(fs: Fields, k: string)
    requires Keyed(fs) && FieldsDicts(fs)
    ensures Keyed(Without(fs, k)) && FieldsDicts(Without(fs, k))
    ensures FieldsSize(Without(fs, k)) <= FieldsSize(fs)
  {
    if fs.Field? {
      WithoutKeyed(fs.rest, k);
      GetWithout(fs.rest, k, fs.key);
    }
  }

  // ---- the loops --------------------------------------------------------------

  method NormalizeItems(items: Items, nullable: bool) returns (r: Option<Items>)
    requires ItemsDicts(items)
    ensures r == if ItemsRun(items) then Some(NormItems(items, nullable)) else None
    decreases ItemsSize(items), 0
  {
    var done, todo := Nil, items;
    JoinItemsNil(NormItems(items, nullable));
    while todo.Item?
      invariant ItemsDicts(todo) && ItemsSize(todo) <= ItemsSize(items)
      invariant JoinItems(done, NormItems(todo, nullable)) == NormItems(items, nullable)
      invariant ItemsRun(items) <==> ItemsRun(todo)
      decreases todo
    {
      var head := Normalize(todo.head, nullable);
      if head.None? {
        return None;
      }
      JoinItemsAssociates(done, Item(head.value, Nil), NormItems(todo.tail, nullable));
      done := JoinItems(done, Item(head.value, Nil));
      todo := todo.tail;
    }
    JoinItemsNil(done);
    r := Some(done);
  }

  method NormalizeProperties(ps: Fields, required: Option<Json>, nullable: bool) returns (r: Option<Fields>)
    requires Keyed(ps) && FieldsDicts(ps)
    ensures r == if PropertiesRun(ps) then Some(NormProperties(ps, required, nullable)) else None
    decreases FieldsSize(ps), 0
  {
    var done, todo := Empty, ps;
    while todo.Field?
      invariant Keyed(todo) && FieldsDicts(todo) && FieldsSize(todo) <= FieldsSize(ps)
      invariant forall k :: Has(done, k) ==> !Has(todo, k)
      invariant Join(done, NormProperties(todo, required, nullable)) == NormProperties(ps, required, nullable)
      invariant PropertiesRun(ps) <==> PropertiesRun(todo)
      decreases todo
    {
      var strict := Normalize(todo.value, nullable);
      if strict.None? {
        return None;
      }
      var property := strict.value;
      if nullable && !InRequired(required, todo.key) && property.Obj? {
        property := MakeNullable(property.fields);
      }
      assert Has(todo, todo.key);
      PutJoin(done, Empty, todo.key, property);
      JoinEmpty(done);
      JoinAssociates(done, Field(todo.key, property, Empty), NormProperties(todo.rest, required, nullable));
      forall k | Has(Put(done, todo.key, property), k) ensures !Has(todo.rest, k) {
        GetPut(done, todo.key, property, k);
        assert Has(done, k) ==> !Has(todo, k);
      }
      done := Put(done, todo.key, property);
      todo := todo.rest;
    }
    JoinEmpty(done);
    r := Some(done);
  }

  /** The values the second loop goes into are smaller than the bound. */
  ghost predicate Within(fs: Fields, bound: nat) {
    fs.Field? ==> (Skipped(fs.key) || Size(fs.value) < bound) && Within(fs.rest, bound)
  }

  /** The second loop: the dict is assigned to in place while its items are gone through. */
  method NormalizeValues(fs: Fields, nullable: bool, ghost bound: nat) returns (r: Option<Fields>)
    requires Keyed(fs) && FieldsDicts(fs) && !Has(fs, "default") && Within(fs, bound)
    ensures r == if OthersRun(fs, false) then Some(Rewrite(fs, nullable)) else None
    decreases bound, 1
  {
    var normalized, todo := fs, fs;
    ghost var done := Empty;
    while todo.Field?
      invariant Keyed(todo) && FieldsDicts(todo) && !Has(todo, "default") && Within(todo, bound)
      invariant Join(done, todo) == fs
      invariant normalized == Join(Rewrite(done, nullable), todo)
      invariant OthersRun(fs, false) <==> OthersRun(todo, false)
      decreases todo
    {
      var key, item := todo.key, todo.value;
      HasJoin(done, todo, key);
      HasRewrite(done, key, nullable);
      PutJoin(Rewrite(done, nullable), todo, key, Rewritten(key, item, nullable));
      if !Skipped(key) {
        var value := Normalize(item, nullable);
        if value.None? {
          return None;
        }
        normalized := Put(normalized, key, value.value);
      }
      RewriteJoin(done, Field(key, item, Empty), nullable);
      JoinAssociates(done, Field(key, item, Empty), todo.rest);
      JoinAssociates(Rewrite(done, nullable), Field(key, Rewritten(key, item, nullable), Empty), todo.rest);
      done := Join(done, Field(key, item, Empty));
      todo := todo.rest;
    }
    JoinEmpty(done);
    JoinEmpty(Rewrite(done, nullable));
    r := Some(normalized);
  }

  // ---- what may raise is the same before and after the first assignments ------

  lemma {:induction false} OthersRunWithout(fs: Fields, closing: bool)
    ensures OthersRun(Without(fs, "default"), closing) <==> OthersRun(fs, closing)
  {
    if fs.Field? {
      OthersRunWithout(fs.rest, closing);
    }
  }

  lemma {:induction false} OthersRunPut(fs: Fields, k: string, x: Json, closing: bool)
    requires Skipped(k)
    ensures OthersRun(Put(fs, k, x), closing) <==> OthersRun(fs, closing)
  {
    if fs.Field? && fs.key != k {
      OthersRunPut(fs.rest, k, x, closing);
    }
  }

  lemma {:induction false} OthersRunOpen(fs: Fields)
    requires !Has(fs, "additionalProperties")
    ensures OthersRun(fs, false) <==> OthersRun(fs, true)
  {
    if fs.Field? {
      OthersRunOpen(fs.rest);
    }
  }

  lemma {:induction false} OthersRunClosed(fs: Fields)
    requires Keyed(fs)
    ensures OthersRun(Put(fs, "additionalProperties", Bool(false)), false) <==> OthersRun(fs, true)
  {
    if fs.Field? {
      if fs.key == "additionalProperties" {
        OthersRunOpen(fs.rest);
      } else {
        OthersRunClosed(fs.rest);
      }
    }
  }

  // ---- one dict ---------------------------------------------------------------

  function Copy(fs: Fields): Fields { Without(fs, "default") }

  /** The dict after the assignments for the properties ps. */
  function Assigned(copy: Fields, ps: Fields): Fields {
    Put(Put(Put(copy, "properties", Obj(ps)), "required", Arr(Names(ps))), "additionalProperties", Bool(false))
  }

  lemma AssignedKeyed(copy: Fields, ps: Fields)
    requires Keyed(copy) && FieldsDicts(copy) && !Has(copy, "default") && Keyed(ps) && FieldsDicts(ps)
    ensures Keyed(Assigned(copy, ps)) && FieldsDicts(Assigned(copy, ps)) && !Has(Assigned(copy, ps), "default")
  {
    var one := Put(copy, "properties", Obj(ps));
    var two := Put(one, "required", Arr(Names(ps)));
    PutKeyed(copy, "properties", Obj(ps));
    PutDicts(copy, "properties", Obj(ps));
    PutKeyed(one, "required", Arr(Names(ps)));
    NamesDicts(ps);
    PutDicts(one, "required", Arr(Names(ps)));
    PutKeyed(two, "additionalProperties", Bool(false));
    PutDicts(two, "additionalProperties", Bool(false));
    GetPut(copy, "properties", Obj(ps), "default");
    GetPut(one, "required", Arr(Names(ps)), "default");
    GetPut(two, "additionalProperties", Bool(false), "default");
  }

  lemma AssignedRuns(fs: Fields, ps: Fields)
    requires Keyed(Copy(fs))
    ensures OthersRun(Assigned(Copy(fs), ps), false) <==> OthersRun(fs, true)
  {
    var one := Put(Copy(fs), "properties", Obj(ps));
    var two := Put(one, "required", Arr(Names(ps)));
    PutKeyed(Copy(fs), "properties", Obj(ps));
    PutKeyed(one, "required", Arr(Names(ps)));
    OthersRunClosed(two);
    OthersRunPut(one, "required", Arr(Names(ps)), true);
    OthersRunPut(Copy(fs), "properties", Obj(ps), true);
    OthersRunWithout(fs, true);
  }

  /** After the second loop, the dict is the walk with the two assignments made. */
  lemma AssignedRewritten(fs: Fields, nullable: bool)
    requires Keyed(fs) && HasProperties(fs)
    ensures var required, ps := Get(fs, "required"), PropertiesOf(fs);
      Rewrite(Assigned(Copy(fs), NormProperties(ps, required, nullable)), nullable)
        == Put(Put(NormFields(fs, required, nullable), "required",
                   Arr(Names(PropertiesOf(NormFields(fs, required, nullable))))),
               "additionalProperties", Bool(false))
  {
    var required, ps := Get(fs, "required"), NormProperties(PropertiesOf(fs), Get(fs, "required"), nullable);
    var one := Put(Copy(fs), "properties", Obj(ps));
    RewriteIsWalkToo(fs, required, nullable);
    GetNorm(fs, required, nullable, "properties");
    PutRewrite(one, "required", Arr(Names(ps)), nullable);
    PutRewrite(Put(one, "required", Arr(Names(ps))), "additionalProperties", Bool(false), nullable);
  }

  lemma {:induction false} CopyWithin(fs: Fields, bound: nat)
    requires FieldsSize(fs) <= bound
    ensures Within(Copy(fs), bound)
  {
    if fs.Field? {
      CopyWithin(fs.rest, bound);
    }
  }

  lemma {:induction false} PutWithin(fs: Fields, k: string, x: Json, bound: nat)
    requires Within(fs, bound) && (Skipped(k) || Size(x) < bound)
    ensures Within(Put(fs, k, x), bound)
  {
    if fs.Field? && fs.key != k {
      PutWithin(fs.rest, k, x, bound);
    }
  }

  lemma AssignedWithin(fs: Fields, ps: Fields)
    requires HasProperties(fs)
    ensures Within(Assigned(Copy(fs), ps), FieldsSize(fs))
  {
    GetSmaller(fs, "properties");
    CopyWithin(fs, FieldsSize(fs));
    var one := Put(Copy(fs), "properties", Obj(ps));
    PutWithin(Copy(fs), "properties", Obj(ps), FieldsSize(fs));
    PutWithin(one, "required", Arr(Names(ps)), FieldsSize(fs));
    PutWithin(Put(one, "required", Arr(Names(ps))), "additionalProperties", Bool(false), FieldsSize(fs));
  }

  method NormalizeObject(fields: Fields, nullable: bool) returns (r: Option<Fields>)
    requires Dicts(Obj(fields))
    ensures r == if Runs(Obj(fields)) then Some(Close(NormFields(fields, Get(fields, "required"), nullable))) else None
    decreases FieldsSize(fields), 2
  {
    var normalized := Copy(fields);
    WithoutKeyed(fields, "default");
    GetWithout(fields, "default", "default");
    GetWithout(fields, "default", "properties");
    GetWithout(fields, "default", "required");
    GetNorm(fields, Get(fields, "required"), nullable, "properties");
    if HasProperties(normalized) {
      var required := Get(normalized, "required");
      if !Hashable(required) {
        return None;
      }
      GetDicts(fields, "properties");
      GetSmaller(fields, "properties");
      var properties := NormalizeProperties(PropertiesOf(normalized), required, nullable);
      if properties.None? {
        return None;
      }
      NormPropertiesDicts(PropertiesOf(normalized), required, nullable);
      AssignedKeyed(normalized, properties.value);
      AssignedWithin(fields, properties.value);
      AssignedRuns(fields, properties.value);
      AssignedRewritten(fields, nullable);
      normalized := Put(normalized, "properties", Obj(properties.value));
      normalized := Put(normalized, "required", Arr(Names(properties.value)));
      normalized := Put(normalized, "additionalProperties", Bool(false));
    } else {
      CopyWithin(fields, FieldsSize(fields));
      OthersRunWithout(fields, false);
      RewriteIsWalk(fields, Get(fields, "required"), nullable);
    }
    r := NormalizeValues(normalized, nullable, FieldsSize(fields));
    if r.Some? && Get(r.value, "type") == Some(Str("object")) {
      r := Some(Put(r.value, "additionalProperties", Bool(false)));
    }
  }

  /** The strict form of a schema, or nothing where the original raises a TypeError. */
  method Normalize(v: Json, nullable: bool) returns (r: Option<Json>)
    requires Dicts(v)
    ensures r == if Runs(v) then Some(Norm(v, nullable)) else None
    decreases Size(v), 3
  {
    if v.Arr? {
      var items := NormalizeItems(v.items, nullable);
      r := if items.None? then None else Some(Arr(items.value));
    } else if v.Obj? {
      var fields := NormalizeObject(v.fields, nullable);
      r := if fields.None? then None else Some(Obj(fields.value));
    } else {
      r := Some(v);
    }
  }
}
