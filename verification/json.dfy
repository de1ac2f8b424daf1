/** The values `JSON.parse` can produce, and the few JavaScript operators the
    configuration validator applies to them. */
module Json {
  import opened Wrappers

  /** A parsed JSON document. Numbers are restricted to integers. The entries
      of an object are listed in JavaScript's property enumeration order; an
      object built by `JSON.parse` never repeats a key. */
  datatype Value =
    | Null
    | Bool(b: bool)
    | Num(n: int)
    | Str(s: string)
    | Arr(items: seq<Value>)
    | Obj(entries: seq<(string, Value)>)

  /** The JSON values JavaScript treats as false: `null`, `false`, `0` and
      `""`. Arrays and objects are truthy even when empty. */
  predicate Falsy(v: Value)
    ensures Falsy(v) <==> v in {Null, Bool(false), Num(0), Str("")}
  {
    match v
    case Null => true
    case Bool(b) => !b
    case Num(n) => n == 0
    case Str(s) => s == ""
    case Arr(_) => false
    case Obj(_) => false
  }

  /** `!x` for a property read whose result may be `undefined`. */
  predicate Absent(x: Option<Value>)
    ensures x.None? ==> Absent(x)
    ensures x.Some? && (x.value.Arr? || x.value.Obj?) ==> !Absent(x)
  {
    x.None? || Falsy(x.value)
  }

  /** `typeof v === 'object'`, which holds for `null`, arrays and objects. */
  predicate IsObjectType(v: Value) {
    v.Null? || v.Arr? || v.Obj?
  }

  /** `Number.MAX_SAFE_INTEGER`, the largest length lodash accepts. */
  const MaxSafeInteger: int := 0x1F_FFFF_FFFF_FFFF

  /** Lodash's `_.size`. A value is array-like when its `length` property is
      an integer from 0 to `Number.MAX_SAFE_INTEGER`; its size is then that
      property, whatever else it holds. Any other object has as its size the
      number of its keys, and `null`, booleans and numbers have size 0. */
  function Size(v: Value): (r: nat)
    ensures v.Arr? ==> r == |v.items|
    ensures v.Str? ==> r == |v.s|
    ensures v.Null? || v.Bool? || v.Num? ==> r == 0
    ensures v.Obj? && "length" !in Keys(v.entries) ==> r == |v.entries|
    ensures v.Obj? ==> (r == 0 <==> v.entries == [] || Lookup(v.entries, "length") == Some(Num(0)))
  {
    match v
    case Arr(items) => |items|
    case Str(s) => |s|
    case Obj(entries) =>
      (match Lookup(entries, "length")
       case Some(Num(n)) => if 0 <= n <= MaxSafeInteger then n else |entries|
       case _ => |entries|)
    case _ => 0
  }

  /** The keys of an object, in enumeration order. */
  function Keys(entries: seq<(string, Value)>): seq<string> {
    seq(|entries|, i requires 0 <= i < |entries| => entries[i].0)
  }

  /** No key occurs twice, as in every JavaScript object. */
  predicate UniqueKeys(entries: seq<(string, Value)>) {
    forall i, j :: 0 <= i < j < |entries| ==> entries[i].0 != entries[j].0
  }

  /** The value stored under `key`: the first entry carrying that key. */
  function Lookup(entries: seq<(string, Value)>, key: string): (r: Option<Value>)
    ensures r.Some? <==> key in Keys(entries)
    ensures r.Some? ==> (key, r.value) in entries
  {
    if entries == [] then None
    else
      assert Keys(entries) == [entries[0].0] + Keys(entries[1..]);
      if entries[0].0 == key then Some(entries[0].1)
      else Lookup(entries[1..], key)
  }

  /** The property read `v[key]`. Only objects carry the properties this model
      reads (`packages` and `owners`); on anything else the read is
      `undefined`. */
  function Get(v: Value, key: string): Option<Value> {
    if v.Obj? then Lookup(v.entries, key) else None
  }
}
