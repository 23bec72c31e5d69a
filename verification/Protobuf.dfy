/** Two-way translation between JSON and protobuf `Value`. */
module Protobuf {
  import opened Prelude
  import opened Json

  datatype PbValue = PbValue(kind: Option<Kind>)

  datatype Kind =
    | NullValue(tag: int)
    | BoolValue(b: bool)
    | NumberValue(f: F64)
    | StringValue(s: string)
    | ListValue(values: seq<PbValue>)
    | StructValue(fields: seq<PbField>)

  /** One entry of a struct, in key order. */
  datatype PbField = PbField(key: string, value: PbValue)

  function ToPb(v: Value, round: int -> real): PbValue
    decreases v, 0
  {
    PbValue(Some(
      match v
      case Null => NullValue(0)
      case Bool(b) => BoolValue(b)
      case Num(n) => NumberValue(AsF64(n, round))
      case Str(s) => StringValue(s)
      case Arr(items) => ListValue(ItemsToPb(items, round))
      case Obj(fields) => StructValue(FieldsToPb(fields, round))))
  }

  function ItemsToPb(items: seq<Value>, round: int -> real): seq<PbValue>
    decreases items, 1
  {
    if items == [] then [] else [ToPb(items[0], round)] + ItemsToPb(items[1..], round)
  }

  function FieldsToPb(fields: seq<Field>, round: int -> real): seq<PbField>
    decreases fields, 1
  {
    if fields == [] then [] else [PbField(fields[0].key, ToPb(fields[0].value, round))] + FieldsToPb(fields[1..], round)
  }

  function ToJson(v: PbValue): Value
    decreases v, 0
  {
    match v.kind
    case None => Null
    case Some(NullValue(_)) => Null
    case Some(BoolValue(b)) => Bool(b)
    case Some(NumberValue(f)) => if f.Finite? then Num(Float(f)) else Null
    case Some(StringValue(s)) => Str(s)
    case Some(ListValue(values)) => Arr(ItemsToJson(values))
    case Some(StructValue(fields)) => Obj(FieldsToJson(fields))
  }

  function ItemsToJson(values: seq<PbValue>): seq<Value>
    decreases values, 1
  {
    if values == [] then [] else [ToJson(values[0])] + ItemsToJson(values[1..])
  }

  function FieldsToJson(fields: seq<PbField>): seq<Field>
    decreases fields, 1
  {
    if fields == [] then [] else [Field(fields[0].key, ToJson(fields[0].value))] + FieldsToJson(fields[1..])
  }

  // ---------- JSON to protobuf and back ----------

  /** Integers become the doubles they round to, doubles stay. */
  predicate SameNumber(m: Number, n: Number, round: int -> real)
  {
    match m
    case PosInt(k) => n == Float(Finite(round(k), false))
    case NegInt(k) => n == Float(Finite(round(k), false))
    case Float(f) => n == Float(f)
  }

  /** Equal up to the representation of numbers: same shape, same order, same keys, same leaves. */
  predicate SameButNumbers(a: Value, b: Value, round: int -> real)
    decreases a, 0
  {
    match (a, b)
    case (Num(m), Num(n)) => SameNumber(m, n, round)
    case (Arr(xs), Arr(ys)) => |xs| == |ys| && forall i :: 0 <= i < |xs| ==> SameButNumbers(xs[i], ys[i], round)
    case (Obj(xs), Obj(ys)) =>
      |xs| == |ys| &&
      forall i :: 0 <= i < |xs| ==> xs[i].key == ys[i].key && SameButNumbers(xs[i].value, ys[i].value, round)
    case (_, _) => a == b && !a.Num? && !a.Arr? && !a.Obj?
  }

  /** A round trip through protobuf changes nothing but the representation of numbers. */
  lemma {:induction false} JsonRoundTrip(v: Value, round: int -> real)
    requires FiniteNumbers(v)
    ensures SameButNumbers(v, ToJson(ToPb(v, round)), round)
    decreases v, 0
  {
    match v {
      case Arr(items) => ItemsRoundTrip(items, round);
      case Obj(fields) => FieldsRoundTrip(fields, round);
      case _ =>
    }
  }

  lemma {:induction false} ItemsRoundTrip(items: seq<Value>, round: int -> real)
    requires forall i :: 0 <= i < |items| ==> FiniteNumbers(items[i])
    ensures var back := ItemsToJson(ItemsToPb(items, round));
            |back| == |items| && forall i :: 0 <= i < |items| ==> SameButNumbers(items[i], back[i], round)
    decreases items, 1
  {
    if items != [] {
      JsonRoundTrip(items[0], round);
      ItemsRoundTrip(items[1..], round);
      assert ItemsToPb(items, round)[1..] == ItemsToPb(items[1..], round);
    }
  }

  lemma {:induction false} FieldsRoundTrip(fields: seq<Field>, round: int -> real)
    requires forall i :: 0 <= i < |fields| ==> FiniteNumbers(fields[i].value)
    ensures var back := FieldsToJson(FieldsToPb(fields, round));
            |back| == |fields| &&
            forall i :: 0 <= i < |fields| ==>
              fields[i].key == back[i].key && SameButNumbers(fields[i].value, back[i].value, round)
    decreases fields, 1
  {
    if fields != [] {
      JsonRoundTrip(fields[0].value, round);
      FieldsRoundTrip(fields[1..], round);
      assert FieldsToPb(fields, round)[1..] == FieldsToPb(fields[1..], round);
    }
  }

  // ---------- Protobuf to JSON and back ----------

  /** Kinds are set, nulls are 0 and numbers are finite, all the way down. */
  predicate Canonical(v: PbValue)
    decreases v, 0
  {
    match v.kind
    case None => false
    case Some(NullValue(tag)) => tag == 0
    case Some(NumberValue(f)) => f.Finite?
    case Some(ListValue(values)) => forall i :: 0 <= i < |values| ==> Canonical(values[i])
    case Some(StructValue(fields)) => forall i :: 0 <= i < |fields| ==> Canonical(fields[i].value)
    case Some(_) => true
  }

  /** The other direction is the identity exactly on the canonical values. */
  lemma {:induction false} PbRoundTrip(v: PbValue, round: int -> real)
    ensures ToPb(ToJson(v), round) == v <==> Canonical(v)
    decreases v, 0
  {
    match v.kind {
      case Some(ListValue(values)) => PbItemsRoundTrip(values, round);
      case Some(StructValue(fields)) => PbFieldsRoundTrip(fields, round);
      case _ =>
    }
  }

  lemma {:induction false} PbItemsRoundTrip(values: seq<PbValue>, round: int -> real)
    ensures ItemsToPb(ItemsToJson(values), round) == values <==>
            forall i :: 0 <= i < |values| ==> Canonical(values[i])
    decreases values, 1
  {
    if values != [] {
      PbRoundTrip(values[0], round);
      PbItemsRoundTrip(values[1..], round);
      assert ItemsToJson(values)[1..] == ItemsToJson(values[1..]);
      assert values == [values[0]] + values[1..];
      assert forall i :: 0 < i < |values| ==> values[i] == values[1..][i - 1];
      var back := ItemsToPb(ItemsToJson(values), round);
      assert back == [ToPb(ToJson(values[0]), round)] + ItemsToPb(ItemsToJson(values[1..]), round);
      if back == values { assert back[1..] == values[1..]; }
      if forall i :: 0 <= i < |values| ==> Canonical(values[i]) {
        assert forall i :: 0 <= i < |values[1..]| ==> values[1..][i] == values[i + 1];
      }
    }
  }

  lemma {:induction false} PbFieldsRoundTrip(fields: seq<PbField>, round: int -> real)
    ensures FieldsToPb(FieldsToJson(fields), round) == fields <==>
            forall i :: 0 <= i < |fields| ==> Canonical(fields[i].value)
    decreases fields, 1
  {
    if fields != [] {
      PbRoundTrip(fields[0].value, round);
      PbFieldsRoundTrip(fields[1..], round);
      FieldsComeBack(fields, round);
      assert forall i :: 0 < i < |fields| ==> fields[i] == fields[1..][i - 1];
      if forall i :: 0 <= i < |fields| ==> Canonical(fields[i].value) {
        assert forall i :: 0 <= i < |fields[1..]| ==> fields[1..][i] == fields[i + 1];
      }
    }
  }

  lemma FieldsComeBack(fields: seq<PbField>, round: int -> real)
    requires fields != []
    ensures FieldsToPb(FieldsToJson(fields), round) == fields <==>
            ToPb(ToJson(fields[0].value), round) == fields[0].value &&
            FieldsToPb(FieldsToJson(fields[1..]), round) == fields[1..]
  {
    assert FieldsToJson(fields)[1..] == FieldsToJson(fields[1..]);
    assert fields == [fields[0]] + fields[1..];
    SameParts(PbField(fields[0].key, ToPb(ToJson(fields[0].value), round)),
              FieldsToPb(FieldsToJson(fields[1..]), round), fields[0], fields[1..]);
  }

  lemma SameParts(a: PbField, s: seq<PbField>, b: PbField, t: seq<PbField>)
    ensures [a] + s == [b] + t <==> a == b && s == t
  {
    if [a] + s == [b] + t { assert ([a] + s)[0] == a && ([a] + s)[1..] == s && ([b] + t)[1..] == t; }
  }

  /** Translating a JSON document always gives a canonical value. */
  lemma {:induction false} TranslationIsCanonical(v: Value, round: int -> real)
    requires FiniteNumbers(v)
    ensures Canonical(ToPb(v, round))
    decreases v, 0
  {
    match v {
      case Arr(items) => ItemsAreCanonical(items, round);
      case Obj(fields) => FieldsAreCanonical(fields, round);
      case _ =>
    }
  }

  lemma {:induction false} ItemsAreCanonical(items: seq<Value>, round: int -> real)
    requires forall i :: 0 <= i < |items| ==> FiniteNumbers(items[i])
    ensures forall i :: 0 <= i < |ItemsToPb(items, round)| ==> Canonical(ItemsToPb(items, round)[i])
    decreases items, 1
  {
    if items != [] {
      TranslationIsCanonical(items[0], round);
      ItemsAreCanonical(items[1..], round);
    }
  }

  lemma {:induction false} FieldsAreCanonical(fields: seq<Field>, round: int -> real)
    requires forall i :: 0 <= i < |fields| ==> FiniteNumbers(fields[i].value)
    ensures forall i :: 0 <= i < |FieldsToPb(fields, round)| ==> Canonical(FieldsToPb(fields, round)[i].value)
    decreases fields, 1
  {
    if fields != [] {
      TranslationIsCanonical(fields[0].value, round);
      FieldsAreCanonical(fields[1..], round);
    }
  }

  /** Normalising twice is normalising once: a document that has been through protobuf comes back unchanged. */
  lemma RoundTripIsIdempotent(v: Value, round: int -> real)
    requires FiniteNumbers(v)
    ensures var once := ToJson(ToPb(v, round)); ToJson(ToPb(once, round)) == once
  {
    TranslationIsCanonical(v, round);
    PbRoundTrip(ToPb(v, round), round);
  }

  /** What JSON cannot say becomes null: an unset kind, any null value, a number that is not finite. */
  lemma UnsayableIsNull(v: PbValue)
    requires v.kind.None? || v.kind.value.NullValue? || (v.kind.value.NumberValue? && !v.kind.value.f.Finite?)
    ensures ToJson(v) == Null
  {
  }
}
