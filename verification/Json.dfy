/** JSON values; an object is a dict in insertion order. */
module Json {
  import opened Options

  datatype Json =
    | Null
    | Bool(b: bool)
    | Num(n: real)
    | Str(s: string)
    | Arr(items: Items)
    | Obj(fields: Fields)

  datatype Items = Nil | Item(head: Json, tail: Items)

  datatype Fields = Empty | Field(key: string, value: Json, rest: Fields)

  function Size(v: Json): nat
    decreases v
  {
    match v
    case Arr(items) => 1 + ItemsSize(items)
    case Obj(fields) => 1 + FieldsSize(fields)
    case _ => 1
  }

  function ItemsSize(xs: Items): nat
    decreases xs
  {
    match xs case Nil => 0 case Item(head, tail) => 1 + Size(head) + ItemsSize(tail)
  }

  function FieldsSize(fs: Fields): nat
    decreases fs
  {
    match fs case Empty => 0 case Field(_, value, rest) => 1 + Size(value) + FieldsSize(rest)
  }

  function Get(fs: Fields, k: string): Option<Json> {
    match fs
    case Empty => None
    case Field(key, value, rest) => if key == k then Some(value) else Get(rest, k)
  }

  predicate Has(fs: Fields, k: string) { Get(fs, k).Some? }

  /** Assigns to a key: in place, or at the end when it is new. */
  function Put(fs: Fields, k: string, x: Json): Fields {
    match fs
    case Empty => Field(k, x, Empty)
    case Field(key, value, rest) => if key == k then Field(k, x, rest) else Field(key, value, Put(rest, k, x))
  }

  function Without(fs: Fields, k: string): Fields {
    match fs
    case Empty => Empty
    case Field(key, value, rest) => if key == k then Without(rest, k) else Field(key, value, Without(rest, k))
  }

  function Names(fs: Fields): Items {
    match fs
    case Empty => Nil
    case Field(key, _, rest) => Item(Str(key), Names(rest))
  }

  predicate Contains(xs: Items, x: Json) {
    xs.Item? && (xs.head == x || Contains(xs.tail, x))
  }

  /** No key twice. */
  predicate Keyed(fs: Fields) {
    fs.Field? ==> !Has(fs.rest, fs.key) && Keyed(fs.rest)
  }

  /** Every object has each key once, as dicts do. */
  predicate Dicts(v: Json) {
    match v
    case Arr(items) => ItemsDicts(items)
    case Obj(fields) => Keyed(fields) && FieldsDicts(fields)
    case _ => true
  }

  predicate ItemsDicts(xs: Items) {
    xs.Item? ==> Dicts(xs.head) && ItemsDicts(xs.tail)
  }

  predicate FieldsDicts(fs: Fields) {
    fs.Field? ==> Dicts(fs.value) && FieldsDicts(fs.rest)
  }

  lemma GetPut(fs: Fields, k: string, x: Json, j: string)
    ensures Get(Put(fs, k, x), j) == if j == k then Some(x) else Get(fs, j)
  {
  }

  lemma PutSame(fs: Fields, k: string, x: Json)
    requires Get(fs, k) == Some(x)
    ensures Put(fs, k, x) == fs
  {
  }

  lemma PutKeyed(fs: Fields, k: string, x: Json)
    requires Keyed(fs)
    ensures Keyed(Put(fs, k, x))
  {
    if fs.Field? && fs.key != k {
      PutKeyed(fs.rest, k, x);
      GetPut(fs.rest, k, x, fs.key);
    }
  }

  lemma GetWithout(fs: Fields, k: string, j: string)
    ensures Get(Without(fs, k), j) == if j == k then None else Get(fs, j)
  {
  }

  lemma NamesAre(fs: Fields, k: string)
    ensures Contains(Names(fs), Str(k)) <==> Has(fs, k)
  {
  }

  lemma GetSmaller(fs: Fields, k: string)
    requires Has(fs, k)
    ensures Size(Get(fs, k).value) < FieldsSize(fs)
  {
  }

  lemma GetDicts(fs: Fields, k: string)
    requires FieldsDicts(fs) && Has(fs, k)
    ensures Dicts(Get(fs, k).value)
  {
  }
}
