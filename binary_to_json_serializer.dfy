/** The blueprint decoder that writes through System.Text.Json: it walks a
    blueprint's schema, reads each value from the archive and emits JSON
    tokens. The functions state what a decode reads and emits; the class
    does it step by step and is proved to agree with them. */
module BinaryToJsonSerializer {
  import opened Base
  import opened Numbers
  import opened Guids
  import opened Schema
  import opened BinaryInput
  import EnumNames
  import Binary32

  /** The calls made on the JSON writer. Numbers read as binary32 or
      binary64 are kept as their bit patterns; their text ("G9", "G17", or
      a string for NaN and infinities) is left to the writer. */
  datatype Token =
    | StartObject | EndObject | StartArray | EndArray
    | PropertyName(name: string)
    | NullValue
    | BoolValue(b: bool)
    | IntegerValue(n: int)
    | SingleValue(bits: nat)
    | DoubleValue(bits: nat)
    | StringValue(s: string)

  /** The decoder's collaborators: the schema the provider resolves for each
      type id it knows, and the UTF-8 decoding ReadString applies. */
  datatype Env = Env(types: map<Guid, TypeSchema>, utf8: seq<byte> -> string)

  /** ITypeSchemaProvider.Resolve as the decoder sees it. */
  function Resolve(types: map<Guid, TypeSchema>, id: Guid): (r: Result<TypeSchema>)
    ensures r.Ok? <==> id != Empty && id in types
    ensures r.Ok? ==> r.value == types[id]
    ensures r.Err? ==> (r.error == EmptyTypeId <==> id == Empty) && r.error in {EmptyTypeId, UnknownTypeId}
  {
    if id == Empty then Err(EmptyTypeId)
    else if id !in types then Err(UnknownTypeId)
    else Ok(types[id])
  }

  /** ReadTypeId: 16 bytes as a Guid, EndOfStream when fewer remain. */
  function TypeIdAt(data: seq<byte>, pos: nat): (r: Result<Parsed<Guid>>)
    ensures r.Ok? <==> pos + 16 <= |data|
    ensures r.Ok? ==> r.value.value == data[pos..pos + 16] && r.value.next == pos + 16
    ensures r.Err? ==> r.error == EndOfStream
  {
    var b :- BytesAt(data, pos, 16);
    Ok(Parsed(b.value, b.next))
  }

  /** `WriteNumber(name, x)`: a property and its number. */
  function Member(name: string, t: Token): seq<Token>
  {
    [PropertyName(name), t]
  }

  /** A successful decode never moves the reader back. */
  predicate Advances(pos: nat, r: Result<Parsed<seq<Token>>>)
  {
    r.Ok? ==> pos <= r.value.next
  }

  /** The writer only appends: what was written before stays in front. */
  predicate Extends(out: seq<Token>, r: Result<Parsed<seq<Token>>>)
  {
    r.Ok? ==> out <= r.value.value
  }

  function ColorTokens(red: nat, green: nat, blue: nat, alpha: nat): seq<Token>
  {
    [StartObject, PropertyName("r"), SingleValue(red), PropertyName("g"), SingleValue(green),
      PropertyName("b"), SingleValue(blue), PropertyName("a"), SingleValue(alpha), EndObject]
  }

  /** A Color: four floats r, g, b, a. Every decode below takes the tokens
      written so far and yields the writer's whole output. */
  function ColorAt(data: seq<byte>, pos: nat, out: seq<Token>): (r: Result<Parsed<seq<Token>>>)
    ensures Advances(pos, r)
    ensures Extends(out, r)
  {
    var red :- SingleAt(data, pos);
    var green :- SingleAt(data, red.next);
    var blue :- SingleAt(data, green.next);
    var alpha :- SingleAt(data, blue.next);
    Ok(Parsed(out + ColorTokens(red.value, green.value, blue.value, alpha.value), alpha.next))
  }

  /** Byte k of a packed int32, `(packed >> 8k) & 255`; Dafny's `/` and `%`
      floor, as the arithmetic shift and the mask do for negative values. */
  function Channel(packed: int, k: nat): (c: int)
    requires k < 4
    ensures 0 <= c < 256
  {
    (packed / Pow2(8 * k)) % 256
  }

  function Color32Tokens(packed: int): seq<Token>
  {
    [StartObject, PropertyName("r"), IntegerValue(Channel(packed, 0)), PropertyName("g"), IntegerValue(Channel(packed, 1)),
      PropertyName("b"), IntegerValue(Channel(packed, 2)), PropertyName("a"), IntegerValue(Channel(packed, 3)),
      PropertyName("packed"), IntegerValue(packed), EndObject]
  }

  /** A Color32: one int32 whose four bytes are r, g, b and a. */
  function Color32At(data: seq<byte>, pos: nat, out: seq<Token>): (r: Result<Parsed<seq<Token>>>)
    ensures Advances(pos, r)
    ensures Extends(out, r)
  {
    var packed :- Int32At(data, pos);
    Ok(Parsed(out + Color32Tokens(packed.value), packed.next))
  }

  function Vector2Tokens(x: nat, y: nat): seq<Token>
  {
    [StartObject, PropertyName("x"), SingleValue(x), PropertyName("y"), SingleValue(y), EndObject]
  }

  function Vector2At(data: seq<byte>, pos: nat, out: seq<Token>): (r: Result<Parsed<seq<Token>>>)
    ensures Advances(pos, r)
    ensures Extends(out, r)
  {
    var x :- SingleAt(data, pos);
    var y :- SingleAt(data, x.next);
    Ok(Parsed(out + Vector2Tokens(x.value, y.value), y.next))
  }

  function Vector3Tokens(x: nat, y: nat, z: nat): seq<Token>
  {
    [StartObject, PropertyName("x"), SingleValue(x), PropertyName("y"), SingleValue(y), PropertyName("z"), SingleValue(z), EndObject]
  }

  function Vector3At(data: seq<byte>, pos: nat, out: seq<Token>): (r: Result<Parsed<seq<Token>>>)
    ensures Advances(pos, r)
    ensures Extends(out, r)
  {
    var x :- SingleAt(data, pos);
    var y :- SingleAt(data, x.next);
    var z :- SingleAt(data, y.next);
    Ok(Parsed(out + Vector3Tokens(x.value, y.value, z.value), z.next))
  }

  function Vector4Tokens(x: nat, y: nat, z: nat, w: nat): seq<Token>
  {
    [StartObject, PropertyName("x"), SingleValue(x), PropertyName("y"), SingleValue(y),
      PropertyName("z"), SingleValue(z), PropertyName("w"), SingleValue(w), EndObject]
  }

  function Vector4At(data: seq<byte>, pos: nat, out: seq<Token>): (r: Result<Parsed<seq<Token>>>)
    ensures Advances(pos, r)
    ensures Extends(out, r)
  {
    var x :- SingleAt(data, pos);
    var y :- SingleAt(data, x.next);
    var z :- SingleAt(data, y.next);
    var w :- SingleAt(data, z.next);
    Ok(Parsed(out + Vector4Tokens(x.value, y.value, z.value, w.value), w.next))
  }

  function Vector2IntTokens(x: int, y: int): seq<Token>
  {
    [StartObject, PropertyName("x"), IntegerValue(x), PropertyName("y"), IntegerValue(y), EndObject]
  }

  function Vector2IntAt(data: seq<byte>, pos: nat, out: seq<Token>): (r: Result<Parsed<seq<Token>>>)
    ensures Advances(pos, r)
    ensures Extends(out, r)
  {
    var x :- Int32At(data, pos);
    var y :- Int32At(data, x.next);
    Ok(Parsed(out + Vector2IntTokens(x.value, y.value), y.next))
  }

  /** The three kinds of key the curve and gradient loops read. */
  datatype KeyKind = CurveKey | ColorKey | AlphaKey

  function CurveKeyTokens(time: nat, value: nat, mode: byte, inTangent: nat, inWeight: nat, outTangent: nat, outWeight: nat): seq<Token>
  {
    [StartObject, PropertyName("time"), SingleValue(time), PropertyName("value"), SingleValue(value),
      PropertyName("weightedMode"), IntegerValue(mode as int),
      PropertyName("inTangent"), SingleValue(inTangent), PropertyName("inWeight"), SingleValue(inWeight),
      PropertyName("outTangent"), SingleValue(outTangent), PropertyName("outWeight"), SingleValue(outWeight), EndObject]
  }

  function ColorKeyTokens(time: nat, red: nat, green: nat, blue: nat): seq<Token>
  {
    [StartObject, PropertyName("time"), SingleValue(time), PropertyName("r"), SingleValue(red),
      PropertyName("g"), SingleValue(green), PropertyName("b"), SingleValue(blue), EndObject]
  }

  function AlphaKeyTokens(time: nat, alpha: nat): seq<Token>
  {
    [StartObject, PropertyName("time"), SingleValue(time), PropertyName("alpha"), SingleValue(alpha), EndObject]
  }

  /** The bytes one key takes: a curve keyframe is six floats and a byte,
      a colour key four floats, an alpha key two. */
  function KeyWidth(k: KeyKind): nat
  {
    match k
    case CurveKey => 25
    case ColorKey => 16
    case AlphaKey => 8
  }

  /** A key's tokens from the bytes at `pos`: a curve keyframe is time,
      value, the weighted mode byte, then the in and out tangents and
      weights; a colour key is time, r, g, b; an alpha key time, alpha. */
  function KeyTokens(k: KeyKind, data: seq<byte>, pos: nat): seq<Token>
    requires pos + KeyWidth(k) <= |data|
  {
    match k
    case CurveKey =>
      CurveKeyTokens(Word32(data, pos), Word32(data, pos + 4), data[pos + 8], Word32(data, pos + 9),
        Word32(data, pos + 13), Word32(data, pos + 17), Word32(data, pos + 21))
    case ColorKey => ColorKeyTokens(Word32(data, pos), Word32(data, pos + 4), Word32(data, pos + 8), Word32(data, pos + 12))
    case AlphaKey => AlphaKeyTokens(Word32(data, pos), Word32(data, pos + 4))
  }

  /** One key read field by field: it fails exactly when fewer bytes than
      its width remain. */
  function KeyAt(k: KeyKind, data: seq<byte>, pos: nat, out: seq<Token>): (r: Result<Parsed<seq<Token>>>)
    ensures Advances(pos, r)
    ensures Extends(out, r)
  {
    if pos + KeyWidth(k) <= |data| then Ok(Parsed(out + KeyTokens(k, data, pos), pos + KeyWidth(k)))
    else Err(EndOfStream)
  }

  /** The first n keys of a run starting at `start`. */
  function KeysAt(k: KeyKind, data: seq<byte>, start: nat, n: nat, out: seq<Token>): (r: Result<Parsed<seq<Token>>>)
    ensures Advances(start, r)
    ensures Extends(out, r)
  {
    if n == 0 then Ok(Parsed(out, start))
    else
      var prev :- KeysAt(k, data, start, n - 1, out);
      KeyAt(k, data, prev.next, prev.value)
  }

  /** The array a `for (var i = 0; i < count; i++)` loop over keys writes. */
  function KeyArrayAt(k: KeyKind, data: seq<byte>, pos: nat, count: int, out: seq<Token>): (r: Result<Parsed<seq<Token>>>)
    ensures Advances(pos, r)
    ensures Extends(out, r)
  {
    var keys :- KeysAt(k, data, pos, Count(count), out + [StartArray]);
    Ok(Parsed(keys.value + [EndArray], keys.next))
  }

  /** An AnimationCurve: an int32 key count, then the keyframes. */
  function AnimationCurveAt(data: seq<byte>, pos: nat, out: seq<Token>): (r: Result<Parsed<seq<Token>>>)
    ensures Advances(pos, r)
    ensures Extends(out, r)
  {
    var count :- Int32At(data, pos);
    var keys :- KeyArrayAt(CurveKey, data, count.next, count.value, out + [StartObject, PropertyName("keys")]);
    Ok(Parsed(keys.value + [EndObject], keys.next))
  }

  /** A Gradient: counted colour keys, then its second half. */
  function GradientAt(data: seq<byte>, pos: nat, out: seq<Token>): (r: Result<Parsed<seq<Token>>>)
    ensures Advances(pos, r)
    ensures Extends(out, r)
  {
    var colorCount :- Int32At(data, pos);
    var colorKeys :- KeyArrayAt(ColorKey, data, colorCount.next, colorCount.value, out + [StartObject, PropertyName("colorKeys")]);
    AlphaKeysAt(data, colorKeys.next, colorKeys.value)
  }

  /** The second half of a Gradient: counted alpha keys and the mode byte. */
  function AlphaKeysAt(data: seq<byte>, pos: nat, out: seq<Token>): (r: Result<Parsed<seq<Token>>>)
    ensures Advances(pos, r)
    ensures Extends(out, r)
  {
    var alphaCount :- Int32At(data, pos);
    var alphaKeys :- KeyArrayAt(AlphaKey, data, alphaCount.next, alphaCount.value, out + [PropertyName("alphaKeys")]);
    var mode :- ByteAt(data, alphaKeys.next);
    Ok(Parsed(alphaKeys.value + (Member("mode", IntegerValue(mode.value as int)) + [EndObject]), mode.next))
  }

  /** A ColorBlock: four colours read as the Color kind is, then the colour
      multiplier and the fade duration. */
  function ColorBlockAt(data: seq<byte>, pos: nat, out: seq<Token>): (r: Result<Parsed<seq<Token>>>)
    ensures Advances(pos, r)
    ensures Extends(out, r)
  {
    var normal :- ColorAt(data, pos, out + [StartObject, PropertyName("normalColor")]);
    var pressed :- ColorAt(data, normal.next, normal.value + [PropertyName("pressedColor")]);
    var highlighted :- ColorAt(data, pressed.next, pressed.value + [PropertyName("highlightedColor")]);
    var disabled :- ColorAt(data, highlighted.next, highlighted.value + [PropertyName("disabledColor")]);
    var multiplier :- SingleAt(data, disabled.next);
    var fade :- SingleAt(data, multiplier.next);
    Ok(Parsed(disabled.value + (Member("colorMultiplier", SingleValue(multiplier.value))
      + Member("fadeDuration", SingleValue(fade.value)) + [EndObject]), fade.next))
  }

  /** The "$type" member of an identified object: the id in "N" form, a
      comma and a space, and the type's short name. */
  function TypeLabel(s: TypeSchema): (r: string)
    ensures |r| == 34 + |s.name|
    ensures r[..32] == FormatN(s.typeId) && r[32..34] == ", " && r[34..] == s.name
  {
    FormatN(s.typeId) + ", " + s.name
  }

  /** The token a UInt64 value becomes, as intended: the exact integer. */
  function UInt64Token(u: nat): Token
  {
    IntegerValue(u)
  }

  /** The token a UInt64 value becomes as the source is written: the writer
      has no `ulong` overload, so the value goes through the `float` one and
      is first rounded to the nearest binary32. */
  function UInt64TokenAsWritten(u: nat): Token
  {
    SingleValue(Binary32.NearestSingleBits(u))
  }

  /** ReadValueAsJson: what one value of schema `v` reads and writes. */
  function DecodeValue(env: Env, data: seq<byte>, pos: nat, v: ValueSchema, out: seq<Token>): (r: Result<Parsed<seq<Token>>>)
    ensures Advances(pos, r)
    ensures Extends(out, r)
    decreases Remaining(data, pos), v, 1, 0
  {
    match v.kind
    case Int32 =>
      var x :- Int32At(data, pos);
      Ok(Parsed(out + [IntegerValue(x.value)], x.next))
    case UInt32 =>
      var x :- UInt32At(data, pos);
      Ok(Parsed(out + [IntegerValue(x.value)], x.next))
    case Int64 =>
      var x :- Int64At(data, pos);
      Ok(Parsed(out + [IntegerValue(x.value)], x.next))
    case UInt64 =>
      var x :- UInt64At(data, pos);
      Ok(Parsed(out + [UInt64Token(x.value)], x.next))
    case Single =>
      var x :- SingleAt(data, pos);
      Ok(Parsed(out + [SingleValue(x.value)], x.next))
    case Double =>
      var x :- DoubleAt(data, pos);
      Ok(Parsed(out + [DoubleValue(x.value)], x.next))
    case Boolean =>
      var x :- BooleanAt(data, pos);
      Ok(Parsed(out + [BoolValue(x.value)], x.next))
    case String =>
      var x :- StringAt(env.utf8, data, pos);
      Ok(Parsed(out + [StringValue(x.value)], x.next))
    case EnumInt32 =>
      var x :- Int32At(data, pos);
      if v.objectType.None? then Err(NullReference)
      else
        var name :- EnumNames.GetEnumName(v.objectType.value, x.value);
        Ok(Parsed(out + [StringValue(name)], x.next))
    case UnityObjectRef =>
      var x :- Int32At(data, pos);
      Ok(Parsed(out + [ObjectRefToken(x.value)], x.next))
    case BlueprintRef =>
      var x :- StringAt(env.utf8, data, pos);
      Ok(Parsed(out + [BlueprintRefToken(x.value)], x.next))
    case Color => ColorAt(data, pos, out)
    case Color32 => Color32At(data, pos, out)
    case Vector2 => Vector2At(data, pos, out)
    case Vector3 => Vector3At(data, pos, out)
    case Vector4 => Vector4At(data, pos, out)
    case Vector2Int => Vector2IntAt(data, pos, out)
    case AnimationCurve => AnimationCurveAt(data, pos, out)
    case Gradient => GradientAt(data, pos, out)
    case ColorBlock => ColorBlockAt(data, pos, out)
    case Array => SequenceAt(env, data, pos, v, out)
    case List => SequenceAt(env, data, pos, v, out)
    case Object => ObjectAt(env, data, pos, v, out)
  }

  /** A UnityObjectRef index: null when negative. */
  function ObjectRefToken(index: int): (t: Token)
    ensures t == NullValue <==> index < 0
    ensures index >= 0 ==> t == IntegerValue(index)
  {
    if index < 0 then NullValue else IntegerValue(index)
  }

  /** A BlueprintRef guid string: null when empty, else prefixed "!bp_". */
  function BlueprintRefToken(guid: string): (t: Token)
    ensures t == NullValue <==> guid == ""
    ensures guid != "" ==> t.StringValue? && |t.s| == 4 + |guid| && t.s[..4] == "!bp_" && t.s[4..] == guid
  {
    if guid == "" then NullValue else StringValue("!bp_" + guid)
  }

  /** An array or list: an int32 length, then that many elements (none
      when the length is zero or negative). */
  function SequenceAt(env: Env, data: seq<byte>, pos: nat, v: ValueSchema, out: seq<Token>): (r: Result<Parsed<seq<Token>>>)
    ensures Advances(pos, r)
    ensures Extends(out, r)
    decreases Remaining(data, pos), v, 0, 0
  {
    var len :- Int32At(data, pos);
    if Count(len.value) == 0 then Ok(Parsed(out + [StartArray] + [EndArray], len.next))
    else if v.element.None? then Err(NullReference)
    else
      var items :- DecodeElements(env, data, len.next, v.element.value, Count(len.value), out + [StartArray]);
      Ok(Parsed(items.value + [EndArray], items.next))
  }

  /** The first n elements of an array starting at `start`. */
  function DecodeElements(env: Env, data: seq<byte>, start: nat, element: ValueSchema, n: nat, out: seq<Token>): (r: Result<Parsed<seq<Token>>>)
    ensures Advances(start, r)
    ensures Extends(out, r)
    decreases Remaining(data, start), element, 2, n
  {
    if n == 0 then Ok(Parsed(out, start))
    else
      var prev :- DecodeElements(env, data, start, element, n - 1, out);
      DecodeValue(env, data, prev.next, element, prev.value)
  }

  /** A nested object: identified types carry their own type id (zero for
      null); other types use the schema fixed by the field. */
  function ObjectAt(env: Env, data: seq<byte>, pos: nat, v: ValueSchema, out: seq<Token>): (r: Result<Parsed<seq<Token>>>)
    ensures Advances(pos, r)
    ensures Extends(out, r)
    decreases Remaining(data, pos), v, 0, 0
  {
    if v.isIdentifiedType then
      var id :- TypeIdAt(data, pos);
      if id.value == Empty then Ok(Parsed(out + [NullValue], id.next))
      else
        var s :- Resolve(env.types, id.value);
        DecodeBody(env, data, id.next, Some(s), true, out)
    else DecodeBody(env, data, pos, v.objectType, false, out)
  }

  /** The tokens that open an object body. */
  function BodyHeader(s: TypeSchema, identified: bool): seq<Token>
  {
    [StartObject] + (if identified then Member("$type", StringValue(TypeLabel(s))) else [])
  }

  /** ReadObjectBodyAsJson: the fields of `schema` in order, in an object
      that starts with "$type" when the type is identified. */
  function DecodeBody(env: Env, data: seq<byte>, pos: nat, schema: Option<TypeSchema>, identified: bool, out: seq<Token>): (r: Result<Parsed<seq<Token>>>)
    ensures Advances(pos, r)
    ensures Extends(out, r)
    decreases Remaining(data, pos), schema, 0, 0
  {
    if schema.None? then Err(MissingSchema)
    else
      var s := schema.value;
      var fields :- DecodeFields(env, data, pos, s, |s.fields|, out + BodyHeader(s, identified));
      Ok(Parsed(fields.value + [EndObject], fields.next))
  }

  /** The first k fields of `s`, each as its name and its value. */
  function DecodeFields(env: Env, data: seq<byte>, start: nat, s: TypeSchema, k: nat, out: seq<Token>): (r: Result<Parsed<seq<Token>>>)
    requires k <= |s.fields|
    ensures Advances(start, r)
    ensures Extends(out, r)
    decreases Remaining(data, start), s, 0, k
  {
    if k == 0 then Ok(Parsed(out, start))
    else
      var prev :- DecodeFields(env, data, start, s, k - 1, out);
      var f := s.fields[k - 1];
      assert f in s.fields;
      DecodeValue(env, data, prev.next, f.value, prev.value + [PropertyName(f.name)])
  }

  /** ReadBlueprintAsJson: a root type id (zero writes null and reads
      nothing more), the root object under "Data", then the name and the
      asset id strings, written as "AssetId" before "Name". */
  function DecodeRecord(env: Env, data: seq<byte>, pos: nat, out: seq<Token>): (r: Result<Parsed<seq<Token>>>)
    ensures Advances(pos, r)
    ensures Extends(out, r)
  {
    var id :- TypeIdAt(data, pos);
    if id.value == Empty then Ok(Parsed(out + [NullValue], id.next))
    else
      var s :- Resolve(env.types, id.value);
      var body :- DecodeBody(env, data, id.next, Some(s), true, out + [StartObject, PropertyName("Data")]);
      var name :- StringAt(env.utf8, data, body.next);
      var asset :- StringAt(env.utf8, data, name.next);
      Ok(Parsed(body.value + (Member("AssetId", StringValue(asset.value)) + Member("Name", StringValue(name.value)) + [EndObject]), asset.next))
  }

  /** One more key extends the run by that key. */
  lemma KeysStep(k: KeyKind, data: seq<byte>, start: nat, i: nat, out: seq<Token>)
    requires KeysAt(k, data, start, i, out).Ok?
    ensures KeysAt(k, data, start, i + 1, out) == KeyAt(k, data, KeysAt(k, data, start, i, out).value.next, KeysAt(k, data, start, i, out).value.value)
  {
  }

  /** A failure in the first i keys is the failure of the whole run. */
  lemma {:induction false} KeysErrorPersists(k: KeyKind, data: seq<byte>, start: nat, i: nat, n: nat, out: seq<Token>)
    requires i <= n && KeysAt(k, data, start, i, out).Err?
    ensures KeysAt(k, data, start, n, out) == KeysAt(k, data, start, i, out)
    decreases n - i
  {
    if i < n {
      KeysErrorStep(k, data, start, i + 1, out);
      KeysErrorPersists(k, data, start, i + 1, n, out);
    }
  }

  /** A run whose first n - 1 keys failed fails the same way at n keys. */
  lemma KeysErrorStep(k: KeyKind, data: seq<byte>, start: nat, n: nat, out: seq<Token>)
    requires n > 0 && KeysAt(k, data, start, n - 1, out).Err?
    ensures KeysAt(k, data, start, n, out) == KeysAt(k, data, start, n - 1, out)
  {
  }

  lemma {:induction false} ElementsErrorPersists(env: Env, data: seq<byte>, start: nat, element: ValueSchema, i: nat, n: nat, out: seq<Token>)
    requires i <= n && DecodeElements(env, data, start, element, i, out).Err?
    ensures DecodeElements(env, data, start, element, n, out) == DecodeElements(env, data, start, element, i, out)
    decreases n
  {
    if n > i {
      ElementsErrorPersists(env, data, start, element, i, n - 1, out);
    }
  }

  lemma {:induction false} FieldsErrorPersists(env: Env, data: seq<byte>, start: nat, s: TypeSchema, i: nat, k: nat, out: seq<Token>)
    requires i <= k <= |s.fields| && DecodeFields(env, data, start, s, i, out).Err?
    ensures DecodeFields(env, data, start, s, k, out) == DecodeFields(env, data, start, s, i, out)
    decreases k
  {
    if k > i {
      FieldsErrorPersists(env, data, start, s, i, k - 1, out);
    }
  }

  /** The decoder agrees with the function `spec`: on success it moved the
      reader to where the decode ends and the writer holds what it yields;
      on failure it reports the same exception. */
  predicate Emitted(r: Result<()>, spec: Result<Parsed<seq<Token>>>, pos: nat, tokens: seq<Token>)
  {
    match spec
    case Ok(p) => r.Ok? && pos == p.next && tokens == p.value
    case Err(e) => r == Err(e)
  }

  /** The reader and the writer are where the successful decode `spec` ends. */
  predicate At(spec: Result<Parsed<seq<Token>>>, pos: nat, tokens: seq<Token>)
  {
    spec.Ok? && pos == spec.value.next && tokens == spec.value.value
  }

  /** The Utf8JsonWriter the decoder writes to, as the tokens written so far. */
  class TokenWriter {
    var tokens: seq<Token>

    constructor ()
      ensures tokens == []
    {
      tokens := [];
    }

    method Write(ts: seq<Token>)
      modifies this
      ensures tokens == old(tokens) + ts
    {
      tokens := tokens + ts;
    }
  }

  class BlueprintSerializer {
    const reader: ByteReader
    const env: Env

    constructor (reader: ByteReader, env: Env)
      ensures this.reader == reader && this.env == env
    {
      this.reader := reader;
      this.env := env;
    }

    method ReadBlueprintAsJson(writer: TokenWriter) returns (r: Result<()>)
      modifies reader, writer
      ensures Emitted(r, DecodeRecord(env, reader.data, old(reader.pos), old(writer.tokens)), reader.pos, writer.tokens)
    {
      var id :- ReadTypeId();
      if id == Empty {
        writer.Write([NullValue]);
        return Ok(());
      }
      var s :- Resolve(env.types, id);
      writer.Write([StartObject, PropertyName("Data")]);
      var body := ReadObjectBodyAsJson(writer, Some(s), true);
      if body.Err? {
        return body;
      }
      var name :- reader.ReadString(env.utf8);
      var asset :- reader.ReadString(env.utf8);
      writer.Write(Member("AssetId", StringValue(asset)) + Member("Name", StringValue(name)) + [EndObject]);
      r := Ok(());
    }

    method ReadObjectBodyAsJson(writer: TokenWriter, schema: Option<TypeSchema>, identified: bool) returns (r: Result<()>)
      modifies reader, writer
      ensures Emitted(r, DecodeBody(env, reader.data, old(reader.pos), schema, identified, old(writer.tokens)), reader.pos, writer.tokens)
      decreases Remaining(reader.data, reader.pos), schema, 0, 0
    {
      if schema.None? {
        return Err(MissingSchema);
      }
      var s := schema.value;
      writer.Write(BodyHeader(s, identified));
      ghost var start := reader.pos;
      ghost var header := writer.tokens;
      var i := 0;
      while i < |s.fields|
        invariant 0 <= i <= |s.fields|
        invariant At(DecodeFields(env, reader.data, start, s, i, header), reader.pos, writer.tokens)
      {
        var f := s.fields[i];
        assert f in s.fields;
        writer.Write([PropertyName(f.name)]);
        var value := ReadValueAsJson(writer, f.value);
        if value.Err? {
          FieldsErrorPersists(env, reader.data, start, s, i + 1, |s.fields|, header);
          return value;
        }
        i := i + 1;
      }
      writer.Write([EndObject]);
      r := Ok(());
    }

    method ReadValueAsJson(writer: TokenWriter, v: ValueSchema) returns (r: Result<()>)
      modifies reader, writer
      ensures Emitted(r, DecodeValue(env, reader.data, old(reader.pos), v, old(writer.tokens)), reader.pos, writer.tokens)
      decreases Remaining(reader.data, reader.pos), v, 1, 0
    {
      r := Ok(());
      match v.kind {
        case Int32 =>
          var x :- reader.ReadInt32();
          writer.Write([IntegerValue(x)]);
        case UInt32 =>
          var x :- reader.ReadUInt32();
          writer.Write([IntegerValue(x)]);
        case Int64 =>
          var x :- reader.ReadInt64();
          writer.Write([IntegerValue(x)]);
        case UInt64 =>
          var x :- reader.ReadUInt64();
          writer.Write([UInt64Token(x)]);
        case Single =>
          var x :- reader.ReadSingle();
          writer.Write([SingleValue(x)]);
        case Double =>
          var x :- reader.ReadDouble();
          writer.Write([DoubleValue(x)]);
        case Boolean =>
          var x :- reader.ReadBoolean();
          writer.Write([BoolValue(x)]);
        case String =>
          var x :- reader.ReadString(env.utf8);
          writer.Write([StringValue(x)]);
        case EnumInt32 =>
          var x :- reader.ReadInt32();
          if v.objectType.None? {
            return Err(NullReference);
          }
          var name :- EnumNames.GetEnumName(v.objectType.value, x);
          writer.Write([StringValue(name)]);
        case UnityObjectRef =>
          var index :- reader.ReadInt32();
          writer.Write([ObjectRefToken(index)]);
        case BlueprintRef =>
          var guid :- reader.ReadString(env.utf8);
          writer.Write([BlueprintRefToken(guid)]);
        case Color => r := ReadColor(writer);
        case Color32 => r := ReadColor32(writer);
        case Vector2 => r := ReadVector2(writer);
        case Vector3 => r := ReadVector3(writer);
        case Vector4 => r := ReadVector4(writer);
        case Vector2Int => r := ReadVector2Int(writer);
        case AnimationCurve => r := ReadAnimationCurve(writer);
        case Gradient => r := ReadGradient(writer);
        case ColorBlock => r := ReadColorBlock(writer);
        case Array => r := ReadSequence(writer, v);
        case List => r := ReadSequence(writer, v);
        case Object => r := ReadObject(writer, v);
      }
    }

    method ReadColor(writer: TokenWriter) returns (r: Result<()>)
      modifies reader, writer
      ensures Emitted(r, ColorAt(reader.data, old(reader.pos), old(writer.tokens)), reader.pos, writer.tokens)
    {
      var red :- reader.ReadSingle();
      var green :- reader.ReadSingle();
      var blue :- reader.ReadSingle();
      var alpha :- reader.ReadSingle();
      writer.Write(ColorTokens(red, green, blue, alpha));
      r := Ok(());
    }

    method ReadColor32(writer: TokenWriter) returns (r: Result<()>)
      modifies reader, writer
      ensures Emitted(r, Color32At(reader.data, old(reader.pos), old(writer.tokens)), reader.pos, writer.tokens)
    {
      var packed :- reader.ReadInt32();
      writer.Write(Color32Tokens(packed));
      r := Ok(());
    }

    method ReadVector2(writer: TokenWriter) returns (r: Result<()>)
      modifies reader, writer
      ensures Emitted(r, Vector2At(reader.data, old(reader.pos), old(writer.tokens)), reader.pos, writer.tokens)
    {
      var x :- reader.ReadSingle();
      var y :- reader.ReadSingle();
      writer.Write(Vector2Tokens(x, y));
      r := Ok(());
    }

    method ReadVector3(writer: TokenWriter) returns (r: Result<()>)
      modifies reader, writer
      ensures Emitted(r, Vector3At(reader.data, old(reader.pos), old(writer.tokens)), reader.pos, writer.tokens)
    {
      var x :- reader.ReadSingle();
      var y :- reader.ReadSingle();
      var z :- reader.ReadSingle();
      writer.Write(Vector3Tokens(x, y, z));
      r := Ok(());
    }

    method ReadVector4(writer: TokenWriter) returns (r: Result<()>)
      modifies reader, writer
      ensures Emitted(r, Vector4At(reader.data, old(reader.pos), old(writer.tokens)), reader.pos, writer.tokens)
    {
      var x :- reader.ReadSingle();
      var y :- reader.ReadSingle();
      var z :- reader.ReadSingle();
      var w :- reader.ReadSingle();
      writer.Write(Vector4Tokens(x, y, z, w));
      r := Ok(());
    }

    method ReadVector2Int(writer: TokenWriter) returns (r: Result<()>)
      modifies reader, writer
      ensures Emitted(r, Vector2IntAt(reader.data, old(reader.pos), old(writer.tokens)), reader.pos, writer.tokens)
    {
      var x :- reader.ReadInt32();
      var y :- reader.ReadInt32();
      writer.Write(Vector2IntTokens(x, y));
      r := Ok(());
    }

    method ReadCurveKey(writer: TokenWriter) returns (r: Result<()>)
      modifies reader, writer
      ensures Emitted(r, KeyAt(CurveKey, reader.data, old(reader.pos), old(writer.tokens)), reader.pos, writer.tokens)
    {
      var time :- reader.ReadSingle();
      var value :- reader.ReadSingle();
      var weightedMode :- reader.ReadByte();
      var inTangent :- reader.ReadSingle();
      var inWeight :- reader.ReadSingle();
      var outTangent :- reader.ReadSingle();
      var outWeight :- reader.ReadSingle();
      writer.Write(CurveKeyTokens(time, value, weightedMode, inTangent, inWeight, outTangent, outWeight));
      r := Ok(());
    }

    method ReadColorKey(writer: TokenWriter) returns (r: Result<()>)
      modifies reader, writer
      ensures Emitted(r, KeyAt(ColorKey, reader.data, old(reader.pos), old(writer.tokens)), reader.pos, writer.tokens)
    {
      var time :- reader.ReadSingle();
      var red :- reader.ReadSingle();
      var green :- reader.ReadSingle();
      var blue :- reader.ReadSingle();
      writer.Write(ColorKeyTokens(time, red, green, blue));
      r := Ok(());
    }

    method ReadAlphaKey(writer: TokenWriter) returns (r: Result<()>)
      modifies reader, writer
      ensures Emitted(r, KeyAt(AlphaKey, reader.data, old(reader.pos), old(writer.tokens)), reader.pos, writer.tokens)
    {
      var time :- reader.ReadSingle();
      var alpha :- reader.ReadSingle();
      writer.Write(AlphaKeyTokens(time, alpha));
      r := Ok(());
    }

    method ReadKey(writer: TokenWriter, k: KeyKind) returns (r: Result<()>)
      modifies reader, writer
      ensures Emitted(r, KeyAt(k, reader.data, old(reader.pos), old(writer.tokens)), reader.pos, writer.tokens)
    {
      match k {
        case CurveKey => r := ReadCurveKey(writer);
        case ColorKey => r := ReadColorKey(writer);
        case AlphaKey => r := ReadAlphaKey(writer);
      }
    }

    /** One iteration of a key loop: key i + 1 of the run. */
    /** One pass of the key loop: on success the writer holds the first
        i + 1 keys, on failure the whole loop of n keys fails the same way. */
    method ReadNextKey(writer: TokenWriter, k: KeyKind, ghost start: nat, ghost i: nat, ghost n: nat, ghost before: seq<Token>)
      returns (r: Result<()>)
      requires i < n && At(KeysAt(k, reader.data, start, i, before), reader.pos, writer.tokens)
      modifies reader, writer
      ensures r.Ok? ==> At(KeysAt(k, reader.data, start, i + 1, before), reader.pos, writer.tokens)
      ensures r.Err? ==> KeysAt(k, reader.data, start, n, before) == Err(r.error)
    {
      r := ReadKey(writer, k);
      KeysStep(k, reader.data, start, i, before);
      if r.Err? {
        KeysErrorPersists(k, reader.data, start, i + 1, n, before);
      }
    }

    method ReadKeys(writer: TokenWriter, k: KeyKind, count: int) returns (r: Result<()>)
      modifies reader, writer
      ensures Emitted(r, KeysAt(k, reader.data, old(reader.pos), Count(count), old(writer.tokens)), reader.pos, writer.tokens)
    {
      ghost var start := reader.pos;
      ghost var before := writer.tokens;
      var i := 0;
      while i < count
        invariant 0 <= i <= Count(count)
        invariant At(KeysAt(k, reader.data, start, i, before), reader.pos, writer.tokens)
      {
        var key := ReadNextKey(writer, k, start, i, Count(count), before);
        if key.Err? {
          return key;
        }
        i := i + 1;
      }
      assert i == Count(count);
      r := Ok(());
    }

    method ReadKeyArray(writer: TokenWriter, k: KeyKind, count: int) returns (r: Result<()>)
      modifies reader, writer
      ensures Emitted(r, KeyArrayAt(k, reader.data, old(reader.pos), count, old(writer.tokens)), reader.pos, writer.tokens)
    {
      writer.Write([StartArray]);
      r := ReadKeys(writer, k, count);
      if r.Ok? {
        writer.Write([EndArray]);
      }
    }

    method ReadAnimationCurve(writer: TokenWriter) returns (r: Result<()>)
      modifies reader, writer
      ensures Emitted(r, AnimationCurveAt(reader.data, old(reader.pos), old(writer.tokens)), reader.pos, writer.tokens)
    {
      var keysCount :- reader.ReadInt32();
      writer.Write([StartObject, PropertyName("keys")]);
      var keys := ReadKeyArray(writer, CurveKey, keysCount);
      if keys.Err? {
        return keys;
      }
      writer.Write([EndObject]);
      r := Ok(());
    }

    method ReadGradient(writer: TokenWriter) returns (r: Result<()>)
      modifies reader, writer
      ensures Emitted(r, GradientAt(reader.data, old(reader.pos), old(writer.tokens)), reader.pos, writer.tokens)
    {
      var colorKeyCount :- reader.ReadInt32();
      writer.Write([StartObject, PropertyName("colorKeys")]);
      var colorKeys := ReadKeyArray(writer, ColorKey, colorKeyCount);
      if colorKeys.Err? {
        return colorKeys;
      }
      r := ReadAlphaKeys(writer);
    }

    method ReadAlphaKeys(writer: TokenWriter) returns (r: Result<()>)
      modifies reader, writer
      ensures Emitted(r, AlphaKeysAt(reader.data, old(reader.pos), old(writer.tokens)), reader.pos, writer.tokens)
    {
      var alphaKeyCount :- reader.ReadInt32();
      writer.Write([PropertyName("alphaKeys")]);
      var alphaKeys := ReadKeyArray(writer, AlphaKey, alphaKeyCount);
      if alphaKeys.Err? {
        return alphaKeys;
      }
      var mode :- reader.ReadByte();
      writer.Write(Member("mode", IntegerValue(mode as int)) + [EndObject]);
      r := Ok(());
    }

    method ReadColorBlock(writer: TokenWriter) returns (r: Result<()>)
      modifies reader, writer
      ensures Emitted(r, ColorBlockAt(reader.data, old(reader.pos), old(writer.tokens)), reader.pos, writer.tokens)
    {
      writer.Write([StartObject, PropertyName("normalColor")]);
      var normal := ReadColor(writer);
      if normal.Err? {
        return normal;
      }
      writer.Write([PropertyName("pressedColor")]);
      var pressed := ReadColor(writer);
      if pressed.Err? {
        return pressed;
      }
      writer.Write([PropertyName("highlightedColor")]);
      var highlighted := ReadColor(writer);
      if highlighted.Err? {
        return highlighted;
      }
      writer.Write([PropertyName("disabledColor")]);
      var disabled := ReadColor(writer);
      if disabled.Err? {
        return disabled;
      }
      var colorMultiplier :- reader.ReadSingle();
      var fadeDuration :- reader.ReadSingle();
      writer.Write(Member("colorMultiplier", SingleValue(colorMultiplier))
        + Member("fadeDuration", SingleValue(fadeDuration)) + [EndObject]);
      r := Ok(());
    }

    method ReadSequence(writer: TokenWriter, v: ValueSchema) returns (r: Result<()>)
      modifies reader, writer
      ensures Emitted(r, SequenceAt(env, reader.data, old(reader.pos), v, old(writer.tokens)), reader.pos, writer.tokens)
      decreases Remaining(reader.data, reader.pos), v, 0, 0
    {
      var len :- reader.ReadInt32();
      writer.Write([StartArray]);
      if len > 0 && v.element.None? {
        return Err(NullReference);
      }
      ghost var start := reader.pos;
      ghost var inside := writer.tokens;
      var i := 0;
      while i < len
        invariant 0 <= i <= Count(len)
        invariant v.element.Some? ==> At(DecodeElements(env, reader.data, start, v.element.value, i, inside), reader.pos, writer.tokens)
        invariant v.element.None? ==> i == 0 && reader.pos == start && writer.tokens == inside
      {
        var item := ReadValueAsJson(writer, v.element.value);
        if item.Err? {
          ElementsErrorPersists(env, reader.data, start, v.element.value, i + 1, Count(len), inside);
          return item;
        }
        i := i + 1;
      }
      assert i == Count(len);
      writer.Write([EndArray]);
      r := Ok(());
    }

    method ReadObject(writer: TokenWriter, v: ValueSchema) returns (r: Result<()>)
      modifies reader, writer
      ensures Emitted(r, ObjectAt(env, reader.data, old(reader.pos), v, old(writer.tokens)), reader.pos, writer.tokens)
      decreases Remaining(reader.data, reader.pos), v, 0, 0
    {
      if v.isIdentifiedType {
        var typeId :- ReadTypeId();
        if typeId == Empty {
          writer.Write([NullValue]);
          return Ok(());
        }
        var actual :- Resolve(env.types, typeId);
        r := ReadObjectBodyAsJson(writer, Some(actual), true);
      } else {
        r := ReadObjectBodyAsJson(writer, v.objectType, false);
      }
    }

    method ReadTypeId() returns (r: Result<Guid>)
      modifies reader
      ensures Follows(r, TypeIdAt(reader.data, old(reader.pos)), reader.pos)
    {
      var bytes := reader.ReadBytes(16);
      if |bytes| != 16 {
        return Err(EndOfStream);
      }
      r := Ok(bytes);
    }
  }
}
