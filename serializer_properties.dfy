/** What the blueprint decoder promises about the bytes it reads and the
    tokens it writes, stated over the decoding functions. */
module SerializerProperties {
  import opened Base
  import opened Numbers
  import opened Guids
  import opened Schema
  import opened BinaryInput
  import opened BinaryToJsonSerializer
  import Binary32
  import EnumNames

  /** The bytes a value of a fixed-size kind takes in the archive. */
  function FixedWidth(k: ValueKind): Option<nat>
  {
    match k
    case Int32 => Some(4)
    case UInt32 => Some(4)
    case Single => Some(4)
    case UnityObjectRef => Some(4)
    case Color32 => Some(4)
    case Int64 => Some(8)
    case UInt64 => Some(8)
    case Double => Some(8)
    case Boolean => Some(1)
    case Vector2 => Some(8)
    case Vector2Int => Some(8)
    case Vector3 => Some(12)
    case Vector4 => Some(16)
    case Color => Some(16)
    case ColorBlock => Some(72)
    case _ => None
  }

  /** A Color takes four floats. */
  lemma ColorWidth(data: seq<byte>, pos: nat, out: seq<Token>)
    ensures ColorAt(data, pos, out).Ok? <==> pos + 16 <= |data|
    ensures ColorAt(data, pos, out).Ok? ==> ColorAt(data, pos, out).value.next == pos + 16
  {
  }

  /** A ColorBlock takes four colours and two floats. */
  lemma ColorBlockWidth(data: seq<byte>, pos: nat, out: seq<Token>)
    ensures ColorBlockAt(data, pos, out).Ok? <==> pos + 72 <= |data|
    ensures ColorBlockAt(data, pos, out).Ok? ==> ColorBlockAt(data, pos, out).value.next == pos + 72
  {
    ColorWidth(data, pos, out + [StartObject, PropertyName("normalColor")]);
    var normal := ColorAt(data, pos, out + [StartObject, PropertyName("normalColor")]);
    if normal.Ok? {
      ColorWidth(data, pos + 16, normal.value.value + [PropertyName("pressedColor")]);
      var pressed := ColorAt(data, pos + 16, normal.value.value + [PropertyName("pressedColor")]);
      if pressed.Ok? {
        ColorWidth(data, pos + 32, pressed.value.value + [PropertyName("highlightedColor")]);
        var highlighted := ColorAt(data, pos + 32, pressed.value.value + [PropertyName("highlightedColor")]);
        if highlighted.Ok? {
          ColorWidth(data, pos + 48, highlighted.value.value + [PropertyName("disabledColor")]);
        }
      }
    }
  }

  /** A value of a fixed-size kind is read exactly when its width of bytes
      remains, and the reader then stands right after it. */
  lemma FixedWidthDecode(env: Env, data: seq<byte>, pos: nat, v: ValueSchema, out: seq<Token>)
    requires FixedWidth(v.kind).Some?
    ensures var r := DecodeValue(env, data, pos, v, out);
      && (r.Ok? <==> pos + FixedWidth(v.kind).value <= |data|)
      && (r.Ok? ==> r.value.next == pos + FixedWidth(v.kind).value)
  {
    match v.kind
    case Color => ColorWidth(data, pos, out);
    case ColorBlock => ColorBlockWidth(data, pos, out);
    case _ =>
  }

  /** An EnumInt32 reads one Int32 like the other 4-byte kinds, but can
      still fail after it: without an enum schema it is a null reference,
      and otherwise it fails exactly when the enum name cannot be found. */
  lemma EnumInt32Decode(env: Env, data: seq<byte>, pos: nat, v: ValueSchema, out: seq<Token>)
    requires v.kind == EnumInt32
    ensures var r := DecodeValue(env, data, pos, v, out);
      && (pos + 4 > |data| ==> r == Err(EndOfStream))
      && (r.Ok? ==> pos + 4 <= |data| && r.value.next == pos + 4)
      && (pos + 4 <= |data| && v.objectType.None? ==> r == Err(NullReference))
    ensures var r := DecodeValue(env, data, pos, v, out);
      pos + 4 <= |data| && v.objectType.Some? ==>
        var name := EnumNames.GetEnumName(v.objectType.value, Signed32(Word32(data, pos)));
        && (r.Ok? <==> name.Ok?)
        && (r.Ok? ==> r.value.value == out + [StringValue(name.value)])
        && (r.Err? ==> r.error == name.error)
  {
  }

  /** n keys take n times a key's width: the run succeeds exactly when
      that many bytes remain and then ends right after them. */
  lemma {:induction false} KeysWidth(k: KeyKind, data: seq<byte>, start: nat, n: nat, out: seq<Token>)
    requires start <= |data|
    ensures KeysAt(k, data, start, n, out).Ok? <==> start + n * KeyWidth(k) <= |data|
    ensures KeysAt(k, data, start, n, out).Ok? ==> KeysAt(k, data, start, n, out).value.next == start + n * KeyWidth(k)
  {
    if n > 0 {
      KeysWidth(k, data, start, n - 1, out);
      var prev := KeysAt(k, data, start, n - 1, out);
      assert start + n * KeyWidth(k) == start + (n - 1) * KeyWidth(k) + KeyWidth(k);
      if prev.Ok? {
        assert KeysAt(k, data, start, n, out) == KeyAt(k, data, prev.value.next, prev.value.value);
      } else {
        assert KeysAt(k, data, start, n, out) == Err(prev.error);
      }
    }
  }

  /** A counted run of keys in brackets: as many bytes as the keys take. */
  lemma KeyArrayWidth(k: KeyKind, data: seq<byte>, pos: nat, count: int, out: seq<Token>)
    requires pos <= |data|
    ensures KeyArrayAt(k, data, pos, count, out).Ok? <==> pos + Count(count) * KeyWidth(k) <= |data|
    ensures KeyArrayAt(k, data, pos, count, out).Ok? ==> KeyArrayAt(k, data, pos, count, out).value.next == pos + Count(count) * KeyWidth(k)
  {
    KeysWidth(k, data, pos, Count(count), out + [StartArray]);
  }

  /** The int32 count at `pos` as the loop uses it. */
  function CountAt(data: seq<byte>, pos: nat): nat
    requires pos + 4 <= |data|
  {
    Count(Signed32(Word32(data, pos)))
  }

  /** An AnimationCurve takes 4 + 25n bytes for n keyframes. */
  lemma CurveWidth(data: seq<byte>, pos: nat, out: seq<Token>)
    ensures var r := AnimationCurveAt(data, pos, out);
      && (r.Ok? <==> pos + 4 <= |data| && pos + 4 + 25 * CountAt(data, pos) <= |data|)
      && (r.Ok? ==> r.value.next == pos + 4 + 25 * CountAt(data, pos))
  {
    if pos + 4 <= |data| {
      var count := Signed32(Word32(data, pos));
      assert Int32At(data, pos) == Ok(Parsed(count, pos + 4));
      var keys := KeyArrayAt(CurveKey, data, pos + 4, count, out + [StartObject, PropertyName("keys")]);
      KeyArrayWidth(CurveKey, data, pos + 4, count, out + [StartObject, PropertyName("keys")]);
      assert Count(count) == CountAt(data, pos) && KeyWidth(CurveKey) == 25;
      assert AnimationCurveAt(data, pos, out)
        == if keys.Ok? then Ok(Parsed(keys.value.value + [EndObject], keys.value.next)) else Err(keys.error);
    }
  }

  /** The second half of a Gradient takes 4 + 8a + 1 bytes for a alpha keys. */
  lemma AlphaKeysWidth(data: seq<byte>, pos: nat, out: seq<Token>)
    requires pos <= |data|
    ensures var r := AlphaKeysAt(data, pos, out);
      && (r.Ok? <==> pos + 4 <= |data| && pos + 4 + 8 * CountAt(data, pos) + 1 <= |data|)
      && (r.Ok? ==> r.value.next == pos + 4 + 8 * CountAt(data, pos) + 1)
  {
    if pos + 4 <= |data| {
      var count := Signed32(Word32(data, pos));
      assert Int32At(data, pos) == Ok(Parsed(count, pos + 4));
      var keys := KeyArrayAt(AlphaKey, data, pos + 4, count, out + [PropertyName("alphaKeys")]);
      KeyArrayWidth(AlphaKey, data, pos + 4, count, out + [PropertyName("alphaKeys")]);
      if keys.Ok? {
        var end := keys.value.next;
        assert end == pos + 4 + 8 * CountAt(data, pos);
        assert ByteAt(data, end).Ok? <==> end + 1 <= |data|;
      } else {
        assert AlphaKeysAt(data, pos, out) == Err(keys.error);
      }
    }
  }

  /** A Gradient takes 4 + 16c + 4 + 8a + 1 bytes for c colour keys and a
      alpha keys, each count read where the loop before it stopped: it
      decodes exactly when that many bytes remain, and ends right after
      them. */
  lemma GradientWidth(data: seq<byte>, pos: nat, out: seq<Token>)
    ensures var r := GradientAt(data, pos, out);
      && (r.Ok? <==> GradientFits(data, pos))
      && (r.Ok? ==> r.value.next == GradientEnd(data, pos))
  {
    if pos + 4 <= |data| {
      var keys := KeyArrayAt(ColorKey, data, pos + 4, Signed32(Word32(data, pos)), out + [StartObject, PropertyName("colorKeys")]);
      GradientColorKeys(data, pos, out);
      if keys.Ok? {
        AlphaKeysWidth(data, AlphaCountPos(data, pos), keys.value.value);
      }
    }
  }

  /** The colour half of a Gradient: its keys end where the alpha count
      stands, and the rest of the Gradient is read from there. */
  lemma GradientColorKeys(data: seq<byte>, pos: nat, out: seq<Token>)
    requires pos + 4 <= |data|
    ensures var keys := KeyArrayAt(ColorKey, data, pos + 4, Signed32(Word32(data, pos)), out + [StartObject, PropertyName("colorKeys")]);
      && (keys.Ok? <==> AlphaCountPos(data, pos) <= |data|)
      && (keys.Ok? ==> keys.value.next == AlphaCountPos(data, pos))
      && (keys.Ok? ==> GradientAt(data, pos, out) == AlphaKeysAt(data, keys.value.next, keys.value.value))
      && (keys.Err? ==> GradientAt(data, pos, out).Err?)
  {
    var count := Signed32(Word32(data, pos));
    assert Int32At(data, pos) == Ok(Parsed(count, pos + 4));
    var colorOut := out + [StartObject, PropertyName("colorKeys")];
    KeyArrayWidth(ColorKey, data, pos + 4, count, colorOut);
    assert KeyWidth(ColorKey) == 16 && Count(count) == CountAt(data, pos);
  }

  /** Where a Gradient's alpha-key count stands: after the colour count and
      its colour keys. */
  function AlphaCountPos(data: seq<byte>, pos: nat): nat
    requires pos + 4 <= |data|
  {
    pos + 4 + 16 * CountAt(data, pos)
  }

  /** Both counts of a Gradient, its keys and its mode byte are present. */
  predicate GradientFits(data: seq<byte>, pos: nat)
  {
    && pos + 4 <= |data|
    && AlphaCountPos(data, pos) + 4 <= |data|
    && AlphaCountPos(data, pos) + 4 + 8 * CountAt(data, AlphaCountPos(data, pos)) + 1 <= |data|
  }

  /** The position right after a Gradient that fits. */
  function GradientEnd(data: seq<byte>, pos: nat): nat
    requires GradientFits(data, pos)
  {
    AlphaCountPos(data, pos) + 4 + 8 * CountAt(data, AlphaCountPos(data, pos)) + 1
  }

  /** An array or list whose int32 length is zero or negative is written
      as an empty array, whatever its element schema. */
  lemma NonPositiveLengthIsEmpty(env: Env, data: seq<byte>, pos: nat, v: ValueSchema, out: seq<Token>)
    requires v.kind == Array || v.kind == List
    requires pos + 4 <= |data| && Signed32(Word32(data, pos)) <= 0
    ensures DecodeValue(env, data, pos, v, out) == Ok(Parsed(out + [StartArray, EndArray], pos + 4))
  {
    assert out + [StartArray] + [EndArray] == out + [StartArray, EndArray];
  }

  /** An identified object whose type id is all zero is written as null and
      nothing past the id is read. */
  lemma NullIdentifiedObject(env: Env, data: seq<byte>, pos: nat, v: ValueSchema, out: seq<Token>)
    requires v.kind == Object && v.isIdentifiedType
    requires pos + 16 <= |data| && data[pos..pos + 16] == Empty
    ensures DecodeValue(env, data, pos, v, out) == Ok(Parsed(out + [NullValue], pos + 16))
  {
  }

  /** A record whose root type id is all zero is null: neither the name nor
      the asset id is read. */
  lemma NullRecord(env: Env, data: seq<byte>, pos: nat, out: seq<Token>)
    requires pos + 16 <= |data| && data[pos..pos + 16] == Empty
    ensures DecodeRecord(env, data, pos, out) == Ok(Parsed(out + [NullValue], pos + 16))
  {
  }

  /** An object that is not identified reads no type id: its body starts
      at once, with the field's own schema (MissingSchema without one). */
  lemma UnidentifiedObject(env: Env, data: seq<byte>, pos: nat, v: ValueSchema, out: seq<Token>)
    requires v.kind == Object && !v.isIdentifiedType
    ensures DecodeValue(env, data, pos, v, out) == DecodeBody(env, data, pos, v.objectType, false, out)
    ensures v.objectType.None? ==> DecodeValue(env, data, pos, v, out) == Err(MissingSchema)
  {
  }

  /** An identified object whose non-zero type id names no type the
      provider knows fails with UnknownTypeId, after reading the id and
      before writing anything. */
  lemma UnknownObjectType(env: Env, data: seq<byte>, pos: nat, v: ValueSchema, out: seq<Token>)
    requires v.kind == Object && v.isIdentifiedType
    requires pos + 16 <= |data| && data[pos..pos + 16] != Empty && data[pos..pos + 16] !in env.types
    ensures DecodeValue(env, data, pos, v, out) == Err(UnknownTypeId)
  {
    assert Resolve(env.types, data[pos..pos + 16]) == Err(UnknownTypeId);
  }

  /** The same for the root of a record. */
  lemma UnknownRootType(env: Env, data: seq<byte>, pos: nat, out: seq<Token>)
    requires pos + 16 <= |data| && data[pos..pos + 16] != Empty && data[pos..pos + 16] !in env.types
    ensures DecodeRecord(env, data, pos, out) == Err(UnknownTypeId)
  {
    assert Resolve(env.types, data[pos..pos + 16]) == Err(UnknownTypeId);
  }

  /** ForceNeedsType is never consulted: flipping it changes nothing. */
  lemma ForceNeedsTypeIgnored(env: Env, data: seq<byte>, pos: nat, v: ValueSchema, out: seq<Token>, force: bool)
    ensures DecodeValue(env, data, pos, v, out) == DecodeValue(env, data, pos, v.(forceNeedsType := force), out)
  {
    var w := v.(forceNeedsType := force);
    if v.kind == Array || v.kind == List {
      assert SequenceAt(env, data, pos, v, out) == SequenceAt(env, data, pos, w, out);
    } else if v.kind == Object {
      assert ObjectAt(env, data, pos, v, out) == ObjectAt(env, data, pos, w, out);
    }
  }

  /** The four channels of a Color32 are the four bytes of its int32, r
      first: the shifts and masks undo the little-endian packing, whatever
      the sign of the packed value. */
  lemma Color32Channels(data: seq<byte>, pos: nat)
    requires pos + 4 <= |data|
    ensures var packed := Signed32(Word32(data, pos));
      && Channel(packed, 0) == data[pos] as int
      && Channel(packed, 1) == data[pos + 1] as int
      && Channel(packed, 2) == data[pos + 2] as int
      && Channel(packed, 3) == data[pos + 3] as int
  {
    var b0, b1, b2, b3 := data[pos] as int, data[pos + 1] as int, data[pos + 2] as int, data[pos + 3] as int;
    var p := Signed32(Word32(data, pos));
    var q3 := b3 - 0x100 * (if Word32(data, pos) >= 0x8000_0000 then 1 else 0);
    var q2 := b2 + 0x100 * q3;
    var q1 := b1 + 0x100 * q2;
    assert p == b0 + 0x100 * q1;
    assert Pow2(0) == 1 && Pow2(8) == 0x100 && Pow2(16) == 0x1_0000 && Pow2(24) == 0x100_0000;
    Split(p, 1, p, 0);
    Split(p, 0x100, q1, b0);
    Split(p, 0x1_0000, q2, b0 + 0x100 * b1);
    Split(p, 0x100_0000, q3, b0 + 0x100 * b1 + 0x1_0000 * b2);
    Split(q1, 0x100, q2, b1);
    Split(q2, 0x100, q3, b2);
    Split(q3, 0x100, q3 / 0x100, b3);
  }

  /** Euclidean division is unique: x = m·q + r with 0 <= r < m. */
  lemma Split(x: int, m: int, q: int, r: int)
    requires 0 < m && 0 <= r < m && x == m * q + r
    ensures x / m == q && x % m == r
  {
    var q', r' := x / m, x % m;
    assert x == m * q' + r';
    var d := q - q';
    assert m * q - m * q' == m * d;
    MulSign(m, d);
  }

  /** A positive m times a non-zero d is at least m away from zero. */
  lemma MulSign(m: int, d: int)
    requires m > 0
    ensures d >= 1 ==> m * d >= m
    ensures d <= -1 ==> m * d <= -m
  {
    if d >= 1 {
      assert m * d == m + m * (d - 1);
    } else if d <= -1 {
      assert m * d == -m - m * (-d - 1);
    }
  }

  /** The channels put back together give the packed 32-bit pattern, which
      is also written as "packed" (as a signed int32). */
  lemma Color32Reconstructs(data: seq<byte>, pos: nat, out: seq<Token>)
    requires pos + 4 <= |data|
    ensures var packed := Signed32(Word32(data, pos));
      && Channel(packed, 0) + 0x100 * Channel(packed, 1) + 0x1_0000 * Channel(packed, 2) + 0x100_0000 * Channel(packed, 3)
         == Word32(data, pos)
      && packed % 0x1_0000_0000 == Word32(data, pos)
      && Color32At(data, pos, out) == Ok(Parsed(out + Color32Tokens(packed), pos + 4))
  {
    Color32Channels(data, pos);
    assert Int32At(data, pos) == Ok(Parsed(Signed32(Word32(data, pos)), pos + 4));
  }

  /** A root that is not null: an object whose first property is "Data",
      holding the body with its "$type"; after the body the name string is
      read, then the asset id string, and they are written as "AssetId"
      first and "Name" second. */
  lemma RecordShape(env: Env, data: seq<byte>, pos: nat, out: seq<Token>)
    requires pos + 16 <= |data| && data[pos..pos + 16] != Empty && data[pos..pos + 16] in env.types
    requires DecodeBody(env, data, pos + 16, Some(env.types[data[pos..pos + 16]]), true, out + [StartObject, PropertyName("Data")]).Ok?
    ensures var s := env.types[data[pos..pos + 16]];
      var body := DecodeBody(env, data, pos + 16, Some(s), true, out + [StartObject, PropertyName("Data")]).value;
      var name := StringAt(env.utf8, data, body.next);
      var asset := if name.Ok? then StringAt(env.utf8, data, name.value.next) else name;
      var r := DecodeRecord(env, data, pos, out);
      && (r.Ok? <==> name.Ok? && asset.Ok?)
      && (r.Ok? ==>
            && r.value.next == asset.value.next
            && out + [StartObject, PropertyName("Data"), StartObject, PropertyName("$type"), StringValue(TypeLabel(s))] <= r.value.value
            && r.value.value == body.value
                 + [PropertyName("AssetId"), StringValue(asset.value.value), PropertyName("Name"), StringValue(name.value.value), EndObject])
  {
    var s := env.types[data[pos..pos + 16]];
    var start := out + [StartObject, PropertyName("Data")];
    var fields := DecodeFields(env, data, pos + 16, s, |s.fields|, start + BodyHeader(s, true));
    assert fields.Ok?;
    var body := DecodeBody(env, data, pos + 16, Some(s), true, start).value;
    assert body.value == fields.value.value + [EndObject];
    assert start + BodyHeader(s, true) == out + [StartObject, PropertyName("Data"), StartObject, PropertyName("$type"), StringValue(TypeLabel(s))];
    var name := StringAt(env.utf8, data, body.next);
    if name.Ok? {
      var asset := StringAt(env.utf8, data, name.value.next);
      if asset.Ok? {
        var trailer := [PropertyName("AssetId"), StringValue(asset.value.value), PropertyName("Name"), StringValue(name.value.value), EndObject];
        assert Member("AssetId", StringValue(asset.value.value)) + Member("Name", StringValue(name.value.value)) + [EndObject] == trailer;
        assert DecodeRecord(env, data, pos, out) == Ok(Parsed(body.value + trailer, asset.value.next));
      }
    }
  }

  /** As written, two different UInt64 fields can print the same number:
      the eight bytes of 2^24 + 1 and of 2^24 both come out as the float
      2^24. */
  lemma UInt64AsWrittenCollides()
    ensures LE([1, 0, 0, 1, 0, 0, 0, 0]) == 0x100_0001 && LE([0, 0, 0, 1, 0, 0, 0, 0]) == 0x100_0000
    ensures UInt64TokenAsWritten(0x100_0001) == UInt64TokenAsWritten(0x100_0000)
  {
    Binary32.FirstInexactInteger();
  }

  /** With the exact integer token, a UInt64 field's output determines its
      eight bytes: two inputs that decode to the same tokens hold the same
      value. */
  lemma UInt64Exact(env: Env, a: seq<byte>, b: seq<byte>, pos: nat, v: ValueSchema, out: seq<Token>)
    requires v.kind == UInt64
    requires DecodeValue(env, a, pos, v, out).Ok? && DecodeValue(env, b, pos, v, out).Ok?
    requires DecodeValue(env, a, pos, v, out).value.value == DecodeValue(env, b, pos, v, out).value.value
    ensures a[pos..pos + 8] == b[pos..pos + 8]
  {
    var ra := DecodeValue(env, a, pos, v, out).value.value;
    var rb := DecodeValue(env, b, pos, v, out).value.value;
    assert ra == out + [IntegerValue(LE(a[pos..pos + 8]))];
    assert rb == out + [IntegerValue(LE(b[pos..pos + 8]))];
    assert ra[|out|] == rb[|out|];
    LEInjective(a[pos..pos + 8], b[pos..pos + 8]);
  }
}
