/** JSON documents as `serde_json` holds them, and the numbers inside them. */
module Json {
  import opened Prelude

  /** An `f64`, up to rounding: finite values are reals, and zero keeps its sign. */
  datatype F64 = Finite(value: real, negativeZero: bool) | Infinite(negative: bool) | NaN

  /** The sign bit is only observable on zero. */
  predicate ValidF64(f: F64) { f.Finite? && f.negativeZero ==> f.value == 0.0 }

  /** `serde_json::Number`: integers keep their kind, floats are finite. */
  datatype Number = PosInt(nat) | NegInt(int) | Float(F64)

  datatype Value =
    | Null
    | Bool(b: bool)
    | Num(n: Number)
    | Str(s: string)
    | Arr(items: seq<Value>)
    | Obj(fields: seq<Field>)

  /** One entry of an object, in the map's iteration order. */
  datatype Field = Field(key: string, value: Value)

  /** `Number::as_f64`; `round` is the conversion of integers to the nearest double. */
  function AsF64(n: Number, round: int -> real): F64
  {
    match n
    case PosInt(k) => Finite(round(k), false)
    case NegInt(k) => Finite(round(k), false)
    case Float(f) => f
  }

  /** The number stands for `x`. */
  predicate Denotes(n: Number, x: real, round: int -> real)
  {
    match n
    case PosInt(k) => x == round(k)
    case NegInt(k) => x == round(k)
    case Float(f) => f.Finite? && x == f.value
  }

  /** `Map::get`. */
  function Get(fields: seq<Field>, key: string): (r: Option<Value>)
    ensures r.Some? <==> exists i :: 0 <= i < |fields| && fields[i].key == key
    ensures r.Some? ==> exists i :: 0 <= i < |fields| && fields[i] == Field(key, r.value)
  {
    if fields == [] then None
    else if fields[0].key == key then
      assert fields[0] == Field(key, fields[0].value);
      Some(fields[0].value)
    else
      var r := Get(fields[1..], key);
      assert forall i :: 0 <= i < |fields[1..]| ==> fields[1..][i] == fields[i + 1];
      assert forall i :: 0 < i < |fields| ==> fields[i] == fields[1..][i - 1];
      r
  }

  /** The object's entry for `key` is `v`; keys of a parsed object are distinct, so the first entry is the only one. */
  ghost predicate Maps(fields: seq<Field>, key: string, v: Value)
  {
    exists i :: 0 <= i < |fields| && fields[i] == Field(key, v) && forall j :: 0 <= j < i ==> fields[j].key != key
  }

  /** Lookup finds the entry, and none exactly when the key is absent. */
  lemma {:induction false} GetMeaning(fields: seq<Field>, key: string, v: Value)
    ensures Get(fields, key) == Some(v) <==> Maps(fields, key, v)
    ensures Get(fields, key).None? <==> forall i :: 0 <= i < |fields| ==> fields[i].key != key
  {
    if fields != [] {
      if fields[0].key == key {
        MapsFirst(fields, key, v);
      } else {
        GetMeaning(fields[1..], key, v);
        MapsLater(fields, key, v);
      }
    }
  }

  lemma MapsFirst(fields: seq<Field>, key: string, v: Value)
    requires fields != [] && fields[0].key == key
    ensures Maps(fields, key, v) <==> fields[0].value == v
  {
    if fields[0].value == v { assert fields[0] == Field(key, v); }
  }

  lemma MapsLater(fields: seq<Field>, key: string, v: Value)
    requires fields != [] && fields[0].key != key
    ensures Maps(fields, key, v) <==> Maps(fields[1..], key, v)
  {
    var tail := fields[1..];
    if Maps(tail, key, v) {
      var i :| 0 <= i < |tail| && tail[i] == Field(key, v) && forall j :: 0 <= j < i ==> tail[j].key != key;
      assert fields[i + 1] == Field(key, v);
      assert forall j :: 0 < j < i + 1 ==> fields[j] == tail[j - 1];
    }
    if Maps(fields, key, v) {
      var i :| 0 <= i < |fields| && fields[i] == Field(key, v) && forall j :: 0 <= j < i ==> fields[j].key != key;
      assert tail[i - 1] == Field(key, v);
      assert forall j :: 0 <= j < i - 1 ==> tail[j] == fields[j + 1];
    }
  }

  /** The names the reports use for JSON types. */
  lemma TypeNames(v: Value)
    ensures v.Null? <==> TypeName(v) == "null"
    ensures v.Bool? <==> TypeName(v) == "boolean"
    ensures v.Num? <==> TypeName(v) == "number"
    ensures v.Str? <==> TypeName(v) == "string"
    ensures v.Arr? <==> TypeName(v) == "array"
    ensures v.Obj? <==> TypeName(v) == "object"
  {
    var n := TypeName(v);
    assert n[0] == if v.Null? || v.Num? then 'n' else if v.Bool? then 'b' else if v.Str? then 's'
                   else if v.Arr? then 'a' else 'o';
    assert |n| == if v.Null? then 4 else if v.Bool? then 7 else if v.Arr? then 5 else 6;
  }

  /** The numbers a JSON document can hold are finite doubles. */
  predicate FiniteNumbers(v: Value)
    decreases v, 0
  {
    match v
    case Num(Float(f)) => f.Finite? && ValidF64(f)
    case Arr(items) => forall i :: 0 <= i < |items| ==> FiniteNumbers(items[i])
    case Obj(fields) => forall i :: 0 <= i < |fields| ==> FiniteNumbers(fields[i].value)
    case _ => true
  }

  /** `Value::as_array` of an optional value. */
  function ArrayOf(v: Option<Value>): Option<seq<Value>>
  {
    if v.Some? && v.value.Arr? then Some(v.value.items) else None
  }

  function TypeName(v: Value): string
  {
    match v
    case Null => "null"
    case Bool(_) => "boolean"
    case Num(_) => "number"
    case Str(_) => "string"
    case Arr(_) => "array"
    case Obj(_) => "object"
  }
}
