/** `AnyCodable` from Transaction.swift: a type-erased JSON value. `Json` is what a
    JSON decoder's single-value container holds; `Value` is the Swift value stored in
    `AnyCodable.value`. JSON numbers are exact reals with no separate integer form:
    a number decodes as `Int` whenever it is integral and fits 64 bits. */
module AnyCodable {
  import opened Wrappers

  /** Swift's `Int` on a 64-bit platform. */
  type Int64 = x: int | -0x8000_0000_0000_0000 <= x < 0x8000_0000_0000_0000

  /** A JSON value on the wire. */
  datatype Json =
    | JNull
    | JBool(b: bool)
    | JNumber(n: real)
    | JString(s: string)
    | JArray(items: seq<Json>)
    | JObject(fields: map<string, Json>)

  /** The payload of an `AnyCodable`. `VOther` stands for every Swift value outside
      the six supported shapes, which `AnyCodable(_:)` accepts but cannot encode. */
  datatype Value =
    | VBool(b: bool)
    | VInt(i: Int64)
    | VDouble(d: real)
    | VString(s: string)
    | VArray(items: seq<Value>)
    | VDict(entries: map<string, Value>)
    | VOther

  /** The "Unsupported type" decoding or encoding error. */
  datatype CodingError = UnsupportedType

  /** A number the `Int` decoder accepts. */
  predicate IsInt64Number(n: real)
  {
    n == n.Floor as real && -0x8000_0000_0000_0000 <= n.Floor < 0x8000_0000_0000_0000
  }

  /** Holds when no `VOther` occurs anywhere inside the value. */
  predicate Supported(v: Value)
  {
    match v
    case VOther => false
    case VArray(items) => forall i | 0 <= i < |items| :: Supported(items[i])
    case VDict(entries) => forall k | k in entries :: Supported(entries[k])
    case _ => true
  }

  /** The values decoding can produce: supported, and no `Double` that `Int` would
      have claimed first. */
  predicate DecodedForm(v: Value)
  {
    match v
    case VOther => false
    case VDouble(d) => !IsInt64Number(d)
    case VArray(items) => forall i | 0 <= i < |items| :: DecodedForm(items[i])
    case VDict(entries) => forall k | k in entries :: DecodedForm(entries[k])
    case _ => true
  }

  /** Holds when no `null` occurs anywhere inside the JSON value. */
  predicate NullFree(j: Json)
  {
    match j
    case JNull => false
    case JArray(items) => forall i | 0 <= i < |items| :: NullFree(items[i])
    case JObject(fields) => forall k | k in fields :: NullFree(fields[k])
    case _ => true
  }

  /** `init(from:)`: try `Bool`, then `Int`, then `Double`, then `String`, then an array,
      then a dictionary; anything else, `null` included, is "Unsupported type". */
  function Decode(j: Json): (r: Result<Value, CodingError>)
    ensures r.Success? ==> DecodedForm(r.value)
  {
    match j
    case JBool(b) => Success(VBool(b))
    case JNumber(n) => if IsInt64Number(n) then Success(VInt(n.Floor)) else Success(VDouble(n))
    case JString(s) => Success(VString(s))
    case JArray(items) =>
      if forall i | 0 <= i < |items| :: Decode(items[i]).Success? then
        Success(VArray(seq(|items|, i requires 0 <= i < |items| => Decode(items[i]).value)))
      else Failure(UnsupportedType)
    case JObject(fields) =>
      if forall k | k in fields :: Decode(fields[k]).Success? then
        Success(VDict(map k | k in fields :: Decode(fields[k]).value))
      else Failure(UnsupportedType)
    case JNull => Failure(UnsupportedType)
  }

  /** `encode(to:)`: scalars as themselves, arrays and dictionaries element by element,
      anything else "Unsupported type". */
  function Encode(v: Value): (r: Result<Json, CodingError>)
    ensures r.Success? <==> Supported(v)
    ensures r.Success? ==> NullFree(r.value)
  {
    match v
    case VBool(b) => Success(JBool(b))
    case VInt(i) => Success(JNumber(i as real))
    case VDouble(d) => Success(JNumber(d))
    case VString(s) => Success(JString(s))
    case VArray(items) =>
      if forall i | 0 <= i < |items| :: Encode(items[i]).Success? then
        Success(JArray(seq(|items|, i requires 0 <= i < |items| => Encode(items[i]).value)))
      else Failure(UnsupportedType)
    case VDict(entries) =>
      if forall k | k in entries :: Encode(entries[k]).Success? then
        Success(JObject(map k | k in entries :: Encode(entries[k]).value))
      else Failure(UnsupportedType)
    case VOther => Failure(UnsupportedType)
  }

  /** What a value turns into on a trip over the wire: every integral `Double` that
      fits 64 bits becomes an `Int`. */
  function Normalize(v: Value): Value
  {
    match v
    case VDouble(d) => if IsInt64Number(d) then VInt(d.Floor) else v
    case VArray(items) => VArray(seq(|items|, i requires 0 <= i < |items| => Normalize(items[i])))
    case VDict(entries) => VDict(map k | k in entries :: Normalize(entries[k]))
    case _ => v
  }

  /** Decoding fails exactly on JSON containing a `null`. */
  lemma {:induction false} DecodeSucceedsIffNullFree(j: Json)
    ensures Decode(j).Success? <==> NullFree(j)
  {
    match j
    case JArray(items) =>
      forall i | 0 <= i < |items| ensures Decode(items[i]).Success? <==> NullFree(items[i]) {
        DecodeSucceedsIffNullFree(items[i]);
      }
    case JObject(fields) =>
      forall k | k in fields ensures Decode(fields[k]).Success? <==> NullFree(fields[k]) {
        DecodeSucceedsIffNullFree(fields[k]);
      }
    case _ =>
  }

  /** Encoding then decoding a supported value gives back its normal form. */
  lemma {:induction false} DecodeAfterEncode(v: Value)
    requires Supported(v)
    ensures Decode(Encode(v).value) == Success(Normalize(v))
  {
    match v
    case VInt(i) =>
      assert (i as real).Floor == i;
    case VArray(items) =>
      forall i | 0 <= i < |items| ensures Decode(Encode(items[i]).value) == Success(Normalize(items[i])) {
        DecodeAfterEncode(items[i]);
      }
      var js := Encode(v).value.items;
      assert |js| == |items|;
      assert forall i | 0 <= i < |js| :: js[i] == Encode(items[i]).value;
      var decoded := seq(|js|, i requires 0 <= i < |js| => Decode(js[i]).value);
      assert decoded == Normalize(v).items;
    case VDict(entries) =>
      forall k | k in entries ensures Decode(Encode(entries[k]).value) == Success(Normalize(entries[k])) {
        DecodeAfterEncode(entries[k]);
      }
      var js := Encode(v).value.fields;
      assert js.Keys == entries.Keys;
      var decoded := map k | k in js :: Decode(js[k]).value;
      assert decoded == Normalize(v).entries;
    case _ =>
  }

  /** Values in decoded form are their own normal form, so they survive the trip. */
  lemma {:induction false} NormalizeDecodedForm(v: Value)
    requires DecodedForm(v)
    ensures Normalize(v) == v
  {
    match v
    case VArray(items) =>
      forall i | 0 <= i < |items| ensures Normalize(items[i]) == items[i] {
        NormalizeDecodedForm(items[i]);
      }
      assert Normalize(v).items == items;
    case VDict(entries) =>
      forall k | k in entries ensures Normalize(entries[k]) == entries[k] {
        NormalizeDecodedForm(entries[k]);
      }
      assert Normalize(v).entries == entries;
    case _ =>
  }

  lemma {:induction false} DecodedFormIsSupported(v: Value)
    requires DecodedForm(v)
    ensures Supported(v)
  {
    match v
    case VArray(items) =>
      forall i | 0 <= i < |items| ensures Supported(items[i]) {
        DecodedFormIsSupported(items[i]);
      }
    case VDict(entries) =>
      forall k | k in entries ensures Supported(entries[k]) {
        DecodedFormIsSupported(entries[k]);
      }
    case _ =>
  }

  /** Round trip for everything decoding can have produced. */
  lemma RoundTripDecodedForm(v: Value)
    requires DecodedForm(v)
    ensures Encode(v).Success? && Decode(Encode(v).value) == Success(v)
  {
    DecodedFormIsSupported(v);
    DecodeAfterEncode(v);
    NormalizeDecodedForm(v);
  }

  /** The other round trip: re-encoding what was decoded reproduces the JSON. */
  lemma {:induction false} EncodeAfterDecode(j: Json)
    requires Decode(j).Success?
    ensures Encode(Decode(j).value) == Success(j)
  {
    match j
    case JArray(items) =>
      forall i | 0 <= i < |items| ensures Encode(Decode(items[i]).value) == Success(items[i]) {
        EncodeAfterDecode(items[i]);
      }
      var vs := Decode(j).value.items;
      assert |vs| == |items|;
      assert forall i | 0 <= i < |vs| :: vs[i] == Decode(items[i]).value;
      var encoded := seq(|vs|, i requires 0 <= i < |vs| => Encode(vs[i]).value);
      assert encoded == items;
    case JObject(fields) =>
      forall k | k in fields ensures Encode(Decode(fields[k]).value) == Success(fields[k]) {
        EncodeAfterDecode(fields[k]);
      }
      var vs := Decode(j).value.entries;
      assert vs.Keys == fields.Keys;
      var encoded := map k | k in vs :: Encode(vs[k]).value;
      assert encoded == fields;
    case _ =>
  }

  /** A `Double` with an integral value comes back from the wire as an `Int`. */
  lemma IntegralDoubleComesBackAsInt()
    ensures Decode(Encode(VDouble(2.0)).value) == Success(VInt(2))
  {
    DecodeAfterEncode(VDouble(2.0));
  }

  predicate IsScalar(v: Value)
  {
    v.VBool? || v.VInt? || v.VDouble? || v.VString?
  }

  /** `static func ==`: equal only when both sides hold a scalar of the same kind with
      the same value. */
  function Equals(l: Value, r: Value): bool
  {
    match (l, r)
    case (VBool(a), VBool(b)) => a == b
    case (VInt(a), VInt(b)) => a == b
    case (VDouble(a), VDouble(b)) => a == b
    case (VString(a), VString(b)) => a == b
    case _ => false
  }

  /** `==` is value equality restricted to scalars: arrays, dictionaries and other
      values are unequal to everything, themselves included. */
  lemma EqualsIsScalarEquality(l: Value, r: Value)
    ensures Equals(l, r) <==> IsScalar(l) && l == r
  {
  }

  /** Hence `==` is not reflexive: an array is not equal to itself. */
  lemma EqualsNotReflexive(items: seq<Value>)
    ensures !Equals(VArray(items), VArray(items))
    ensures !Equals(VDict(map[]), VDict(map[]))
  {
  }
}
