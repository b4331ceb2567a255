/** Parameters as JSON trees. A double is an opaque value of type `D`, and `cast` is the conversion from a
  * 64-bit integer. */
module ParameterJson {
  import opened Wrappers
  import Base64

  type Int64 = x: int | -0x8000_0000_0000_0000 <= x < 0x8000_0000_0000_0000

  type Uint64 = x: int | 0 <= x < 0x1_0000_0000_0000_0000

  datatype Value<D> =
    | NotSet
    | Bool(bool)
    | Integer(Int64)
    | Double(D)
    | String(string)
    | Bytes(seq<Base64.Byte>)
    | Array(elements: seq<Value<D>>)
    | Struct(fields: map<string, Value<D>>)

  datatype Parameter<D> = Parameter(name: string, value: Value<D>)

  // The parser of the JSON library yields `JsonUnsigned` for integers without a sign.
  datatype Json<D> =
    | Null
    | JsonBool(bool)
    | JsonInteger(Int64)
    | JsonUnsigned(Uint64)
    | JsonFloat(D)
    | JsonString(string)
    | JsonArray(items: seq<Json<D>>)
    | JsonObject(members: map<string, Json<D>>)

  datatype Error = BadName | BadType | BadBase64 | NonNumeric

  type Result<+T> = Wrappers.Result<T, Error>

  // --- Values ---

  function ToJson<D>(v: Value<D>): Json<D> {
    match v
    case NotSet => Null
    case Bool(b) => JsonBool(b)
    case Integer(i) => JsonInteger(i)
    case Double(d) => JsonFloat(d)
    case String(s) => JsonString(s)
    case Bytes(b) => JsonString(Base64.Encode(b))
    case Array(vs) => JsonArray(seq(|vs|, i requires 0 <= i < |vs| => ToJson(vs[i])))
    case Struct(m) => JsonObject(map k | k in m :: ToJson(m[k]))
  }

  function Signed(n: Uint64): Int64 {
    if n < 0x8000_0000_0000_0000 then n else n - 0x1_0000_0000_0000_0000
  }

  function FromJson<D>(j: Json<D>): Value<D> {
    match j
    case Null => NotSet
    case JsonBool(b) => Bool(b)
    case JsonInteger(i) => Integer(i)
    case JsonUnsigned(n) => Integer(Signed(n))
    case JsonFloat(d) => Double(d)
    case JsonString(s) => String(s)
    case JsonArray(js) => Array(seq(|js|, i requires 0 <= i < |js| => FromJson(js[i])))
    case JsonObject(m) => Struct(map k | k in m :: FromJson(m[k]))
  }

  // The value with every byte array turned into its base64 text.
  function Plain<D>(v: Value<D>): Value<D> {
    match v
    case Bytes(b) => String(Base64.Encode(b))
    case Array(vs) => Array(seq(|vs|, i requires 0 <= i < |vs| => Plain(vs[i])))
    case Struct(m) => Struct(map k | k in m :: Plain(m[k]))
    case _ => v
  }

  predicate HasBytes<D>(v: Value<D>) {
    match v
    case Bytes(_) => true
    case Array(vs) => exists i :: 0 <= i < |vs| && HasBytes(vs[i])
    case Struct(m) => exists k :: k in m && HasBytes(m[k])
    case _ => false
  }

  /** Reading a printed value back turns its byte arrays, at any depth, into strings and changes nothing
    * else. */
  lemma {:induction false} ReadPrinted<D>(v: Value<D>)
    ensures FromJson(ToJson(v)) == Plain(v)
  {
    match v
    case Array(vs) =>
      forall i | 0 <= i < |vs| ensures FromJson(ToJson(vs[i])) == Plain(vs[i]) {
        ReadPrinted(vs[i]);
      }
    case Struct(m) =>
      forall k | k in m ensures FromJson(ToJson(m[k])) == Plain(m[k]) {
        ReadPrinted(m[k]);
      }
    case _ =>
  }

  lemma {:induction false} PlainIff<D>(v: Value<D>)
    ensures Plain(v) == v <==> !HasBytes(v)
  {
    match v
    case Array(vs) =>
      forall i | 0 <= i < |vs| ensures Plain(vs[i]) == vs[i] <==> !HasBytes(vs[i]) {
        PlainIff(vs[i]);
      }
      PlainArray(vs);
    case Struct(m) =>
      forall k | k in m ensures Plain(m[k]) == m[k] <==> !HasBytes(m[k]) {
        PlainIff(m[k]);
      }
      PlainStruct(m);
    case _ =>
  }

  lemma {:induction false} PlainArray<D>(vs: seq<Value<D>>)
    ensures Plain(Array(vs)) == Array(vs) <==> forall i | 0 <= i < |vs| :: Plain(vs[i]) == vs[i]
  {
    var ps := Plain(Array(vs)).elements;
    assert forall i | 0 <= i < |vs| :: ps[i] == Plain(vs[i]);
    assert ps == vs <==> forall i | 0 <= i < |vs| :: ps[i] == vs[i];
  }

  lemma {:induction false} PlainStruct<D>(m: map<string, Value<D>>)
    ensures Plain(Struct(m)) == Struct(m) <==> forall k | k in m :: Plain(m[k]) == m[k]
  {
    var pm := Plain(Struct(m)).fields;
    assert forall k | k in m :: pm[k] == Plain(m[k]);
    assert pm == m <==> forall k | k in m :: pm[k] == m[k];
  }

  // What the JSON library's text form does to a tree: integers that print without a sign become unsigned.
  function Reparse<D>(j: Json<D>): Json<D> {
    match j
    case JsonInteger(i) => if i < 0 then j else JsonUnsigned(i)
    case JsonArray(js) => JsonArray(seq(|js|, i requires 0 <= i < |js| => Reparse(js[i])))
    case JsonObject(m) => JsonObject(map k | k in m :: Reparse(m[k]))
    case _ => j
  }

  /** The two forms of an integer read the same, at any depth. */
  lemma {:induction false} ReadReparsed<D>(j: Json<D>)
    ensures FromJson(Reparse(j)) == FromJson(j)
  {
    match j
    case JsonArray(js) =>
      forall i | 0 <= i < |js| ensures FromJson(Reparse(js[i])) == FromJson(js[i]) {
        ReadReparsed(js[i]);
      }
    case JsonObject(m) =>
      forall k | k in m ensures FromJson(Reparse(m[k])) == FromJson(m[k]) {
        ReadReparsed(m[k]);
      }
    case _ =>
  }

  // --- Parameters ---

  /** The members of a parameter's JSON object that the reader looks at. */
  datatype Object<D> = Object(name: Option<Json<D>>, value: Option<Json<D>>, typ: Option<Json<D>>)

  function TypeName<D>(v: Value<D>): Option<Json<D>> {
    if v.Bytes? then Some(JsonString("byte_array"))
    else if v.Double? then Some(JsonString("float64"))
    else if v.Array? && v.elements != [] && v.elements[0].Double? then Some(JsonString("float64_array"))
    else None
  }

  function Print<D>(p: Parameter<D>): Object<D> {
    Object(Some(JsonString(p.name)), Some(ToJson(p.value)), TypeName(p.value))
  }

  predicate Numeric<D>(v: Value<D>) {
    v.Integer? || v.Double?
  }

  function AsDouble<D>(v: Value<D>, cast: Int64 -> D): Value<D> {
    match v
    case Integer(i) => Double(cast(i))
    case _ => v
  }

  // Every element as a double, if every element is a number.
  function AsDoubles<D>(vs: seq<Value<D>>, cast: Int64 -> D): Result<seq<Value<D>>> {
    if exists i :: 0 <= i < |vs| && !Numeric(vs[i]) then Err(NonNumeric)
    else Ok(seq(|vs|, i requires 0 <= i < |vs| => AsDouble(vs[i], cast)))
  }

  function Retype<D>(name: string, v: Value<D>, typ: string, cast: Int64 -> D): Result<Parameter<D>> {
    match v
    case String(s) =>
      if typ != "byte_array" then Ok(Parameter(name, v))
      else if Base64.Decode(s).Ok? then Ok(Parameter(name, Bytes(Base64.Decode(s).value)))
      else Err(BadBase64)
    case Integer(i) => if typ == "float64" then Ok(Parameter(name, Double(cast(i)))) else Ok(Parameter(name, v))
    case Array(vs) =>
      if typ != "float64_array" then Ok(Parameter(name, v))
      else if AsDoubles(vs, cast).Ok? then Ok(Parameter(name, Array(AsDoubles(vs, cast).value)))
      else Err(NonNumeric)
    case _ => Ok(Parameter(name, v))
  }

  function Read<D>(j: Object<D>, cast: Int64 -> D): Result<Parameter<D>> {
    if j.name.None? || !j.name.value.JsonString? then Err(BadName)
    else
      var JsonString(name) := j.name.value;
      if j.value.None? then Ok(Parameter(name, NotSet))
      else if j.typ.Some? && !j.typ.value.JsonString? then Err(BadType)
      else
        var typ := match j.typ case Some(JsonString(s)) => s case _ => "";
        Retype(name, FromJson(j.value.value), typ, cast)
  }

  /** A whole number that a client announces as `float64` is read as a double, with or without a sign. */
  lemma {:induction false} ReadWholeNumber<D>(name: string, n: Int64, u: Uint64, cast: Int64 -> D)
    ensures Read(Object(Some(JsonString(name)), Some(JsonInteger(n)), Some(JsonString("float64"))), cast) ==
            Ok(Parameter(name, Double(cast(n))))
    ensures u < 0x8000_0000_0000_0000 ==>
              Read(Object(Some(JsonString(name)), Some(JsonUnsigned(u)), Some(JsonString("float64"))), cast) ==
              Ok(Parameter(name, Double(cast(u))))
    ensures u >= 0x8000_0000_0000_0000 ==>
              Read(Object(Some(JsonString(name)), Some(JsonUnsigned(u)), Some(JsonString("float64"))), cast) ==
              Ok(Parameter(name, Double(cast(u - 0x1_0000_0000_0000_0000))))
  {
  }

  /** A string announced as `byte_array` is read as the bytes it encodes, or refused. */
  lemma {:induction false} ReadByteArray<D>(name: string, s: string, cast: Int64 -> D)
    ensures Read(Object(Some(JsonString(name)), Some(JsonString(s)), Some(JsonString("byte_array"))), cast) ==
            match Base64.Decode(s) case Ok(b) => Ok(Parameter(name, Bytes(b))) case Err(_) => Err(BadBase64)
  {
  }

  predicate IsNumber<D>(j: Json<D>) { j.JsonInteger? || j.JsonUnsigned? || j.JsonFloat? }

  function NumberOf<D>(j: Json<D>, cast: Int64 -> D): D
    requires IsNumber(j)
  {
    match j
    case JsonInteger(n) => cast(n)
    case JsonUnsigned(u) => cast(Signed(u))
    case JsonFloat(d) => d
  }

  /** An array announced as `float64_array` is read as doubles if all its elements are numbers, whole
    * or not, and refused otherwise. */
  lemma {:induction false} ReadNumbers<D>(name: string, js: seq<Json<D>>, cast: Int64 -> D)
    ensures var r := Read(Object(Some(JsonString(name)), Some(JsonArray(js)), Some(JsonString("float64_array"))), cast);
            if forall i | 0 <= i < |js| :: IsNumber(js[i]) then
              r == Ok(Parameter(name, Array(seq(|js|, i requires 0 <= i < |js| && IsNumber(js[i]) => Double(NumberOf(js[i], cast))))))
            else r == Err(NonNumeric)
  {
    var vs := FromJson(JsonArray(js)).elements;
    forall i | 0 <= i < |js| ensures Numeric(vs[i]) == IsNumber(js[i]) { assert vs[i] == FromJson(js[i]); }
    if forall i | 0 <= i < |js| :: IsNumber(js[i]) {
      var ds := AsDoubles(vs, cast).value;
      forall i | 0 <= i < |js| ensures ds[i] == Double(NumberOf(js[i], cast)) { assert vs[i] == FromJson(js[i]); }
      assert ds == seq(|js|, i requires 0 <= i < |js| && IsNumber(js[i]) => Double(NumberOf(js[i], cast)));
    } else {
      var i :| 0 <= i < |js| && !IsNumber(js[i]);
      assert !Numeric(vs[i]);
    }
  }

  // The in-place loop over the elements of a float64_array.
  method CastElements<D>(values: seq<Value<D>>, cast: Int64 -> D) returns (r: Result<seq<Value<D>>>)
    ensures r == AsDoubles(values, cast)
  {
    var vs := values;
    var i := 0;
    while i < |vs|
      invariant i <= |vs| == |values|
      invariant forall k | 0 <= k < i :: Numeric(values[k]) && vs[k] == AsDouble(values[k], cast)
      invariant forall k | i <= k < |vs| :: vs[k] == values[k]
    {
      match vs[i] {
        case Integer(n) => vs := vs[i := Double(cast(n))];
        case Double(_) =>
        case _ => return Err(NonNumeric);
      }
      i := i + 1;
    }
    assert vs == seq(|values|, k requires 0 <= k < |values| => AsDouble(values[k], cast));
    return Ok(vs);
  }

  // A byte array below the top level.
  predicate NestedBytes<D>(v: Value<D>) {
    !v.Bytes? && HasBytes(v)
  }

  // An array that is announced as doubles because of its first element but holds something else.
  predicate MixedArray<D>(v: Value<D>) {
    v.Array? && v.elements != [] && v.elements[0].Double? && exists i :: 0 <= i < |v.elements| && !v.elements[i].Double?
  }

  lemma {:induction false} DoublesIff<D>(vs: seq<Value<D>>, cast: Int64 -> D)
    ensures AsDoubles(Plain(Array(vs)).elements, cast) == Ok(vs) <==> forall i | 0 <= i < |vs| :: vs[i].Double?
  {
    var ps := Plain(Array(vs)).elements;
    assert |ps| == |vs| && forall i | 0 <= i < |vs| :: ps[i] == Plain(vs[i]);
    var r := AsDoubles(ps, cast);
    if forall i | 0 <= i < |vs| :: vs[i].Double? {
      assert forall i | 0 <= i < |vs| :: ps[i] == vs[i] && AsDouble(ps[i], cast) == vs[i];
      assert r.Ok? && r.value == vs;
    } else {
      var i :| 0 <= i < |vs| && !vs[i].Double?;
      assert Numeric(ps[i]) ==> AsDouble(ps[i], cast).Double?;
      assert r.Ok? ==> r.value[i] == AsDouble(ps[i], cast);
    }
  }

  /** Reading a printed parameter back gives the same parameter if and only if it has no byte array below
    * the top level and is not an array that begins with a double and holds something else. It does not
    * matter whether the tree went through text in between. */
  lemma {:induction false} RoundTripIff<D>(p: Parameter<D>, cast: Int64 -> D)
    ensures Read(Print(p), cast) == Ok(p) <==> !NestedBytes(p.value) && !MixedArray(p.value)
    ensures var j := Print(p);
            Read(j.(value := Some(Reparse(j.value.value))), cast) == Read(j, cast)
  {
    var v := p.value;
    ReadReparsed(ToJson(v));
    ReadPrinted(v);
    PlainIff(v);
    match v
    case Bytes(b) => Base64.RoundTrip(b);
    case Array(vs) =>
      DoublesIff(vs, cast);
    case _ =>
  }
}
