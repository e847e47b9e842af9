/// The JavaScript values the route compiler inspects, and the few pieces of
/// JavaScript and lodash semantics it relies on: truthiness, `isObjectLike`,
/// property access, `.length`, `flattenDeep`, own-key iteration and
/// `toLowerCase`.
module JsValues {

  /** A JavaScript value. A function carries an identity and its declared
      arity (`Function.length`); an object keeps its own keys in order. */
  datatype Value =
    | Undefined
    | Null
    | Bool(b: bool)
    | Num(n: int)
    | Str(s: string)
    | Fn(id: nat, arity: nat)
    | Arr(items: seq<Value>)
    | Obj(fields: seq<Field>)

  /** One own property of an object, or one entry that `forOwn` visits. */
  datatype Field = Field(key: string, value: Value)

  /** JavaScript truthiness: `undefined`, `null`, `false`, `0` and `""` are falsy. */
  predicate Truthy(v: Value) {
    match v
    case Undefined => false
    case Null => false
    case Bool(b) => b
    case Num(n) => n != 0
    case Str(s) => s != ""
    case _ => true
  }

  /** lodash `isObjectLike`: `typeof v == 'object' && v !== null`, so arrays and
      plain objects, but not functions. */
  predicate IsObjectLike(v: Value) {
    v.Arr? || v.Obj?
  }

  /** The value bound to `key` in an object's own fields (`undefined` if none). */
  function Lookup(fields: seq<Field>, key: string): (r: Value)
    ensures r != Undefined ==> exists i :: 0 <= i < |fields| && fields[i] == Field(key, r)
    ensures (forall i | 0 <= i < |fields| :: fields[i].key != key) ==> r == Undefined
  {
    if fields == [] then Undefined
    else if fields[0].key == key then fields[0].value
    else Lookup(fields[1..], key)
  }

  /** Property access `v[key]` for the named properties the compiler reads
      (`action`, `view`, `policy`, `execute`, ...): only plain objects carry them. */
  function FieldOf(v: Value, key: string): Value {
    if v.Obj? then Lookup(v.fields, key) else Undefined
  }

  /** `v.length`: a function's arity, a string's or array's size, an object's own
      `length` property, and `undefined` for booleans and numbers. Reading it on
      `null` or `undefined` throws; callers handle those first. */
  function JsLength(v: Value): Value {
    match v
    case Str(s) => Num(|s|)
    case Fn(_, arity) => Num(arity)
    case Arr(items) => Num(|items|)
    case Obj(fields) => Lookup(fields, "length")
    case _ => Undefined
  }

  /** The leaves that lodash `flattenDeep` produces for one element of the array
      it flattens: an array is flattened recursively, anything else is kept. */
  function FlattenDeep(v: Value): (r: seq<Value>)
    ensures forall i | 0 <= i < |r| :: !r[i].Arr?
    ensures !v.Arr? ==> r == [v]
    decreases v, 1
  {
    match v
    case Arr(items) => FlattenAll(items)
    case _ => [v]
  }

  /** `flattenDeep` of an array: the leaves of each element, in order. */
  function FlattenAll(items: seq<Value>): (r: seq<Value>)
    ensures forall i | 0 <= i < |r| :: !r[i].Arr?
    decreases items, 0
  {
    if items == [] then [] else FlattenDeep(items[0]) + FlattenAll(items[1..])
  }

  /** Flattening a concatenation flattens each part. */
  lemma {:induction false} FlattenAllAppend(xs: seq<Value>, ys: seq<Value>)
    ensures FlattenAll(xs + ys) == FlattenAll(xs) + FlattenAll(ys)
    decreases xs
  {
    if xs == [] {
      assert xs + ys == ys;
    } else {
      assert (xs + ys)[0] == xs[0];
      assert (xs + ys)[1..] == xs[1..] + ys;
      FlattenAllAppend(xs[1..], ys);
    }
  }

  /** A list without nested arrays is its own flattening. */
  lemma {:induction false} FlattenAllFlat(xs: seq<Value>)
    requires forall i | 0 <= i < |xs| :: !xs[i].Arr?
    ensures FlattenAll(xs) == xs
  {
    if xs != [] {
      FlattenAllFlat(xs[1..]);
    }
  }

  /** `flattenDeep` is idempotent: flattening an already flattened array changes nothing. */
  lemma FlattenDeepIdempotent(v: Value)
    ensures FlattenDeep(Arr(FlattenDeep(v))) == FlattenDeep(v)
  {
    FlattenAllFlat(FlattenDeep(v));
  }

  /** A size measure on values, used to bound the nesting of route specifications. */
  function Size(v: Value): (n: nat)
    ensures n >= 1
    decreases v, 1
  {
    match v
    case Arr(items) => 1 + SizeAll(items)
    case Obj(fields) => 1 + SizeFields(fields)
    case _ => 1
  }

  function SizeAll(items: seq<Value>): nat
    decreases items, 0
  {
    if items == [] then 0 else Size(items[0]) + SizeAll(items[1..])
  }

  function SizeFields(fields: seq<Field>): nat
    decreases fields, 0
  {
    if fields == [] then 0
    else Size(fields[0].value) + SizeFields(fields[1..])
  }

  /** Every field value of an object is strictly smaller than the object. */
  lemma {:induction false} FieldSmaller(fields: seq<Field>, j: nat)
    requires j < |fields|
    ensures Size(fields[j].value) <= SizeFields(fields)
  {
    if j > 0 {
      FieldSmaller(fields[1..], j - 1);
    }
  }

  /** The decimal spelling of an array index, as JavaScript gives it as a key. */
  function IndexKey(i: nat): (k: string)
    ensures |k| > 0 && '0' <= k[0] <= '9'
  {
    var digit := ['0' + (i % 10) as char];
    if i < 10 then digit else IndexKey(i / 10) + digit
  }

  /** The own enumerable keys and values that lodash `forOwn` visits, in order:
      an object's fields, an array's or a string's indices, nothing otherwise. */
  function OwnEntries(v: Value): (r: seq<Field>)
    ensures v.Obj? ==> r == v.fields
    ensures !v.Obj? ==> forall j | 0 <= j < |r| :: |r[j].key| > 0 && '0' <= r[j].key[0] <= '9'
  {
    match v
    case Obj(fields) => fields
    case Arr(items) => seq(|items|, i requires 0 <= i < |items| => Field(IndexKey(i), items[i]))
    case Str(s) => seq(|s|, i requires 0 <= i < |s| => Field(IndexKey(i), Str([s[i]])))
    case _ => []
  }

  /** ASCII `toLowerCase`. */
  function Lower(s: string): (r: string)
    ensures |r| == |s|
  {
    seq(|s|, i requires 0 <= i < |s| => if 'A' <= s[i] <= 'Z' then s[i] - 'A' + 'a' else s[i])
  }
}
