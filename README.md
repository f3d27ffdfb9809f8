# BpBinReader core in Dafny

BpBinReader turns a blueprint pack into JSON. A pack is a little-endian
binary archive of serialized game blueprints. Each blueprint is a 16-byte
type id followed by that type's fields, laid out in the order a type schema
gives. This project models the part of BpBinReader that does not depend on
.NET reflection:

- **The schema data model**: `ValueKind`, `ValueSchema` with its factories,
  and `TypeSchema`.
- **The current decoder** (`BinaryToJsonSerializer`). It walks the byte
  stream in schema order and drives a JSON token writer. It handles every
  scalar kind, enum names, object references, the Unity structs (Color,
  Color32, the vectors, AnimationCurve, Gradient, ColorBlock), arrays and
  lists, and polymorphic objects.
- **The pack dump** (`BinaryToJsonConverter`). It reads the table of
  contents (the TOC), emits one member per non-zero offset, and decodes each
  blueprint with the older nested decoder. That decoder writes through the
  hand-written `JsonWriter`.
- **The hand-written `JsonWriter`** (`JsonText`): its indentation, comma and
  escaping rules.
- **Enum names** (`EnumNames`): the flag-join and exact-match lookup of both
  schema providers, and the underlying-type check.
- **Type classification** (`TypeModel`): the priority order in which both
  providers map a type to a `ValueSchema`.
- **The memoising `Resolve`** (`SchemaCache`) shared by both providers.

Two styles are used, following the source. The stream readers, the
decoders and the JSON writer change state step by step, so each is a
class whose methods advance a `ByteReader` position and append to an
output. The TOC reader and the dump loop belong to the source's static
class `BinaryToJsonConverter`, so they are module-level methods that take
the reader and the output as parameters. Each such method is proved
against a pure function of the bytes and the old output. The factories, the
classification and the enum-name logic are expressions in the source, so
they are datatypes and functions here. The lemmas are stated about the
pure functions: bytes consumed per kind, output shape, error cases, and
round trips.

Modules, one per file:

- `Base`: Option, Result and errors.
- `Numbers`: little-endian words and decimal text.
- `Guids`: 16-byte ids and their "N" text.
- `Binary32`: the float nearest an integer.
- `Schema`: the schema datatypes and factories.
- `BinaryInput`: BinaryReader.
- `BinaryToJsonSerializer`: the current decoder.
- `SerializerProperties`: lemmas about the current decoder.
- `JsonText`: JsonWriter.
- `BinaryToJsonConverter`: the TOC reader, the nested decoder and the dump.
- `ConverterProperties`: lemmas about the converter.
- `EnumNames`: enum names.
- `TypeModel`: type classification.
- `SchemaCache`: Resolve.

The model follows the code, including behaviour a reader may not expect:

- A negative array or list length gives `[]` and is not an error.
- A null root reads no name or asset strings.
- `ForceNeedsType` is never consulted by either decoder.
- The pack dump uses the nested decoder, not the newer one.
- The older provider's `GetEnumName` never checks for `[Flags]`.
- The `$type` label of the current decoder is always `"<id N>, <name>"`. The
  null-coalescing fallback never applies, because the concatenation binds
  tighter than `??`.

There are two exceptions, both listed under "## Findings". In each case the
rest of the model follows the corrected program, and the code as written is
kept beside it as its own member:

- The hand-written `JsonWriter` writes one separator before a property name
  (`JsonText.PropertyNameText`), not the two that `WritePropertyName` writes
  as written (`JsonText.PropertyNameTextAsWritten`).
- The current decoder writes a UInt64 as its exact integer
  (`BinaryToJsonSerializer.UInt64Token`), not rounded to a single-precision
  float as written (`BinaryToJsonSerializer.UInt64TokenAsWritten`).

## Model

| member | source | states |
|---|---|---|
| Schema.OfKind | BpBinReader/ValueSchema.cs:11-33 | a scalar or struct factory gives a well-formed schema of that kind with no element, no object type and both flags false |
| Schema.EnumOf | BpBinReader/ValueSchema.cs:19 | EnumInt32 carries the enum's type schema as its object type and has no element |
| Schema.ArrayOf | BpBinReader/ValueSchema.cs:35 | Array sets the element and no object type; the result is well-formed |
| Schema.ListOf | BpBinReader/ValueSchema.cs:36 | List sets the element and no object type; the result is well-formed |
| Schema.ObjectOf | BpBinReader/ValueSchema.cs:38-40 | Object sets the object type and both flags as given (force defaults to false); the result is well-formed |
| Numbers.LEInjective | BpBinReader/BinaryToJsonSerializer.cs:64-68 | equal little-endian values of equal-length byte strings mean equal bytes |
| Numbers.DecimalRoundTrip | BpBinReader/JsonWriter.cs:72-94 | the invariant decimal text of an integer parses back to it |
| Guids.FormatN | BpBinReader/BinaryToJsonConverter.cs:57 | the "N" text of an id is 32 hex digits |
| Guids.ParseFormatN | BpBinReader/BinaryToJsonConverter.cs:57 | the "N" text of an id parses back to the id |
| Guids.FormatNInjective | BpBinReader/BinaryToJsonConverter.cs:57-59 | two ids have the same "N" text exactly when they are equal, so TOC keys stand for distinct ids |
| Guids.EmptyFormatN | BpBinReader/BinaryToJsonSerializer.cs:8-12 | the empty id prints as 32 zeros |
| BinaryInput.BytesAt | BpBinReader/BinaryToJsonSerializer.cs:335-343 | n bytes are read exactly when n remain, and the position moves by n; otherwise EndOfStream |
| BinaryInput.ByteAt | BpBinReader/BinaryToJsonSerializer.cs:197 | one byte is read when one remains |
| BinaryInput.BooleanAt | BpBinReader/BinaryToJsonSerializer.cs:75-77 | ReadBoolean is one byte, true when non-zero |
| BinaryInput.Word32At | BpBinReader/BinaryToJsonSerializer.cs:57-62 | four bytes give a value below 2^32, or EndOfStream |
| BinaryInput.Int32At | BpBinReader/BinaryToJsonSerializer.cs:57-59 | ReadInt32 consumes 4 bytes and gives a value in the 32-bit signed range |
| BinaryInput.UInt32At | BpBinReader/BinaryToJsonConverter.cs:58 | ReadUInt32 consumes 4 bytes and gives a value in 0..2^32-1 |
| BinaryInput.Int64At | BpBinReader/BinaryToJsonSerializer.cs:63-65 | ReadInt64 consumes 8 bytes |
| BinaryInput.UInt64At | BpBinReader/BinaryToJsonSerializer.cs:66-68 | ReadUInt64 consumes 8 bytes and gives a non-negative value |
| BinaryInput.DoubleAt | BpBinReader/BinaryToJsonSerializer.cs:72-74 | ReadDouble consumes 8 bytes |
| BinaryInput.SingleAt | BpBinReader/BinaryToJsonSerializer.cs:70 | ReadSingle consumes 4 bytes and gives a 32-bit pattern; fewer than 4 is an error |
| BinaryInput.VarIntAt | BpBinReader/BinaryToJsonSerializer.cs:22-23 | a string's length prefix is one to five bytes |
| BinaryInput.StringBytesAt | BpBinReader/BinaryToJsonSerializer.cs:22-23 | ReadString's payload is the bytes that end where the read ends, after the prefix |
| BinaryInput.StringAt | BpBinReader/BinaryToJsonSerializer.cs:78-80 | ReadString always consumes at least one byte and stays inside the stream |
| BinaryInput.Encode7Bit | BpBinReader/BinaryToJsonSerializer.cs:22-23 | the length prefix of a string is never empty |
| BinaryInput.VarIntRoundTrip | BpBinReader/BinaryToJsonSerializer.cs:22-23 | a 7-bit encoded length below 2^31 is read back unchanged, with the position just past it |
| BinaryInput.StringRoundTrip | BpBinReader/BinaryToJsonSerializer.cs:22-23 | a length-prefixed string is read back as the decoding of its bytes (an empty payload as "") and the read stops right after it |
| BinaryInput.BytesUpTo | BpBinReader/BinaryToJsonSerializer.cs:336 | ReadBytes(n) gives n bytes, or all that remain when fewer do |
| BinaryInput.ByteReader.constructor | BpBinReader/BinaryToJsonConverter.cs:51 | a new reader is at position 0 of the stream |
| BinaryInput.ByteReader.Seek | BpBinReader/BinaryToJsonConverter.cs:27 | seeking sets the position to the offset |
| BinaryInput.ByteReader.ReadByte | BpBinReader/BinaryToJsonSerializer.cs:197 | returns and consumes what ByteAt reads, or its error |
| BinaryInput.ByteReader.ReadBoolean | BpBinReader/BinaryToJsonSerializer.cs:76 | returns and consumes what BooleanAt reads, or its error |
| BinaryInput.ByteReader.ReadInt32 | BpBinReader/BinaryToJsonSerializer.cs:58 | returns and consumes what Int32At reads, or its error |
| BinaryInput.ByteReader.ReadUInt32 | BpBinReader/BinaryToJsonSerializer.cs:61 | returns and consumes what UInt32At reads, or its error |
| BinaryInput.ByteReader.ReadInt64 | BpBinReader/BinaryToJsonSerializer.cs:64 | returns and consumes what Int64At reads, or its error |
| BinaryInput.ByteReader.ReadUInt64 | BpBinReader/BinaryToJsonSerializer.cs:67 | returns and consumes what UInt64At reads, or its error |
| BinaryInput.ByteReader.ReadSingle | BpBinReader/BinaryToJsonSerializer.cs:70 | returns and consumes the 32-bit pattern SingleAt reads, or its error |
| BinaryInput.ByteReader.ReadDouble | BpBinReader/BinaryToJsonSerializer.cs:73 | returns and consumes the 64-bit pattern DoubleAt reads, or its error |
| BinaryInput.ByteReader.ReadString | BpBinReader/BinaryToJsonSerializer.cs:79 | returns and consumes what StringAt reads, or its error |
| BinaryInput.ByteReader.ReadBytes | BpBinReader/BinaryToJsonSerializer.cs:336 | returns up to n bytes and advances by as many as it returned |
| BinaryInput.ByteReader.Read | BpBinReader/BinaryToJsonConverter.cs:56 | fills the front of the buffer with up to count bytes, advances by that many, and leaves the rest of the buffer unchanged |
| BinaryToJsonSerializer.TypeIdAt | BpBinReader/BinaryToJsonSerializer.cs:335-343 | a type id is exactly the next 16 bytes; fewer than 16 is EndOfStream |
| BinaryToJsonSerializer.Resolve | BpBinReader/TypeSchemaProvider/MetadataLoadContextTypeSchemaProvider.cs:104-111 | the schema is answered exactly for a non-empty id the provider knows; the empty id is EmptyTypeId and any other id UnknownTypeId |
| BinaryToJsonSerializer.TypeLabel | BpBinReader/BinaryToJsonSerializer.cs:38 | the $type label is the id's 32-character "N" text, then ", ", then the short name |
| BinaryToJsonSerializer.UInt64Token | BpBinReader/BinaryToJsonSerializer.cs:66-68 | no contract of its own; UInt64Exact states that equal tokens mean equal input bytes (the corrected behaviour of Findings) |
| BinaryToJsonSerializer.UInt64TokenAsWritten | BpBinReader/BinaryToJsonSerializer.cs:66-68 | no contract of its own; UInt64AsWrittenCollides states that 2^24 + 1 and 2^24 give the same token |
| BinaryToJsonSerializer.BodyHeader | BpBinReader/BinaryToJsonSerializer.cs:36-39 | no contract of its own; RecordShape states that an identified body opens with "{" and its $type member |
| BinaryToJsonSerializer.ColorAt | BpBinReader/BinaryToJsonSerializer.cs:105-118 | Color reads forward and only appends to the output |
| BinaryToJsonSerializer.Channel | BpBinReader/BinaryToJsonSerializer.cs:120-136 | each Color32 channel is in 0..255 |
| BinaryToJsonSerializer.Color32At | BpBinReader/BinaryToJsonSerializer.cs:120-136 | Color32 reads forward and only appends |
| BinaryToJsonSerializer.Vector2At | BpBinReader/BinaryToJsonSerializer.cs:138-147 | Vector2 reads forward and only appends |
| BinaryToJsonSerializer.Vector3At | BpBinReader/BinaryToJsonSerializer.cs:149-160 | Vector3 reads forward and only appends |
| BinaryToJsonSerializer.Vector4At | BpBinReader/BinaryToJsonSerializer.cs:162-175 | Vector4 reads forward and only appends |
| BinaryToJsonSerializer.Vector2IntAt | BpBinReader/BinaryToJsonSerializer.cs:177-186 | Vector2Int reads forward and only appends |
| BinaryToJsonSerializer.KeyAt | BpBinReader/BinaryToJsonSerializer.cs:195-250 | one curve, colour or alpha key reads forward and only appends |
| BinaryToJsonSerializer.KeysAt | BpBinReader/BinaryToJsonSerializer.cs:194-212 | n keys read forward and only append |
| BinaryToJsonSerializer.KeyArrayAt | BpBinReader/BinaryToJsonSerializer.cs:193-213 | a counted key array reads forward and only appends |
| BinaryToJsonSerializer.AnimationCurveAt | BpBinReader/BinaryToJsonSerializer.cs:188-217 | AnimationCurve reads forward and only appends |
| BinaryToJsonSerializer.GradientAt | BpBinReader/BinaryToJsonSerializer.cs:219-259 | Gradient reads forward and only appends |
| BinaryToJsonSerializer.AlphaKeysAt | BpBinReader/BinaryToJsonSerializer.cs:239-256 | the alpha keys and the mode byte read forward and only append |
| BinaryToJsonSerializer.ColorBlockAt | BpBinReader/BinaryToJsonSerializer.cs:261-284 | ColorBlock reads forward and only appends |
| BinaryToJsonSerializer.DecodeValue | BpBinReader/BinaryToJsonSerializer.cs:55-333 | decoding any value never moves backwards and only appends tokens |
| BinaryToJsonSerializer.ObjectRefToken | BpBinReader/BinaryToJsonSerializer.cs:85-93 | an object reference is null exactly when its index is negative, and otherwise the index |
| BinaryToJsonSerializer.BlueprintRefToken | BpBinReader/BinaryToJsonSerializer.cs:95-103 | a blueprint reference is null exactly when its string is empty, and otherwise "!bp_" followed by the string |
| BinaryToJsonSerializer.SequenceAt | BpBinReader/BinaryToJsonSerializer.cs:286-295 | an array or list reads forward and only appends |
| BinaryToJsonSerializer.DecodeElements | BpBinReader/BinaryToJsonSerializer.cs:289-293 | n elements read forward and only append |
| BinaryToJsonSerializer.ObjectAt | BpBinReader/BinaryToJsonSerializer.cs:297-328 | an object value reads forward and only appends; NullIdentifiedObject, UnknownObjectType and UnidentifiedObject state its null, unknown-id and unidentified cases |
| BinaryToJsonSerializer.DecodeBody | BpBinReader/BinaryToJsonSerializer.cs:31-53 | an object body reads forward and only appends |
| BinaryToJsonSerializer.DecodeFields | BpBinReader/BinaryToJsonSerializer.cs:41-50 | the fields in schema order read forward and only append |
| BinaryToJsonSerializer.DecodeRecord | BpBinReader/BinaryToJsonSerializer.cs:7-29 | a blueprint record reads forward and only appends; NullRecord, UnknownRootType and RecordShape state its null, unknown-id and known-id cases |
| BinaryToJsonSerializer.KeysStep | BpBinReader/BinaryToJsonSerializer.cs:194-212 | reading i+1 keys is reading i keys and then one more |
| BinaryToJsonSerializer.KeysErrorPersists | BpBinReader/BinaryToJsonSerializer.cs:194-212 | once a key read fails, reading more keys fails with the same error |
| BinaryToJsonSerializer.KeysErrorStep | BpBinReader/BinaryToJsonSerializer.cs:194-212 | a failure among the first n-1 keys is the outcome for n keys |
| BinaryToJsonSerializer.ElementsErrorPersists | BpBinReader/BinaryToJsonSerializer.cs:289-293 | once an element fails, the whole array fails with that error |
| BinaryToJsonSerializer.FieldsErrorPersists | BpBinReader/BinaryToJsonSerializer.cs:41-50 | once a field fails, the whole body fails with that error |
| BinaryToJsonSerializer.TokenWriter.constructor | BpBinReader/BinaryToJsonSerializer.cs:7 | a new writer holds no tokens |
| BinaryToJsonSerializer.TokenWriter.Write | BpBinReader/BinaryToJsonSerializer.cs:14-27 | writing appends exactly the given tokens |
| BinaryToJsonSerializer.BlueprintSerializer.constructor | BpBinReader/BinaryToJsonSerializer.cs:1-5 | the serializer keeps the reader and the schemas it is given |
| BinaryToJsonSerializer.BlueprintSerializer.ReadBlueprintAsJson | BpBinReader/BinaryToJsonSerializer.cs:7-29 | the reader's new position and the appended tokens are those of DecodeRecord, and an error is DecodeRecord's error |
| BinaryToJsonSerializer.BlueprintSerializer.ReadObjectBodyAsJson | BpBinReader/BinaryToJsonSerializer.cs:31-53 | the position and tokens are those of DecodeBody, or its error |
| BinaryToJsonSerializer.BlueprintSerializer.ReadValueAsJson | BpBinReader/BinaryToJsonSerializer.cs:55-333 | the position and tokens are those of DecodeValue, or its error |
| BinaryToJsonSerializer.BlueprintSerializer.ReadColor | BpBinReader/BinaryToJsonSerializer.cs:105-118 | the position and tokens are those of ColorAt |
| BinaryToJsonSerializer.BlueprintSerializer.ReadColor32 | BpBinReader/BinaryToJsonSerializer.cs:120-136 | the position and tokens are those of Color32At |
| BinaryToJsonSerializer.BlueprintSerializer.ReadVector2 | BpBinReader/BinaryToJsonSerializer.cs:138-147 | the position and tokens are those of Vector2At |
| BinaryToJsonSerializer.BlueprintSerializer.ReadVector3 | BpBinReader/BinaryToJsonSerializer.cs:149-160 | the position and tokens are those of Vector3At |
| BinaryToJsonSerializer.BlueprintSerializer.ReadVector4 | BpBinReader/BinaryToJsonSerializer.cs:162-175 | the position and tokens are those of Vector4At |
| BinaryToJsonSerializer.BlueprintSerializer.ReadVector2Int | BpBinReader/BinaryToJsonSerializer.cs:177-186 | the position and tokens are those of Vector2IntAt |
| BinaryToJsonSerializer.BlueprintSerializer.ReadCurveKey | BpBinReader/BinaryToJsonSerializer.cs:195-211 | the position and tokens are those of one curve key |
| BinaryToJsonSerializer.BlueprintSerializer.ReadColorKey | BpBinReader/BinaryToJsonSerializer.cs:226-236 | the position and tokens are those of one colour key |
| BinaryToJsonSerializer.BlueprintSerializer.ReadAlphaKey | BpBinReader/BinaryToJsonSerializer.cs:244-250 | the position and tokens are those of one alpha key |
| BinaryToJsonSerializer.BlueprintSerializer.ReadKey | BpBinReader/BinaryToJsonSerializer.cs:195-250 | the position and tokens are those of KeyAt for the key's kind |
| BinaryToJsonSerializer.BlueprintSerializer.ReadNextKey | BpBinReader/BinaryToJsonSerializer.cs:194-212 | one loop step: after i keys it stands after i+1 keys, or its error is the outcome for all n keys |
| BinaryToJsonSerializer.BlueprintSerializer.ReadKeys | BpBinReader/BinaryToJsonSerializer.cs:194-212 | the keys loop reads max(count, 0) keys exactly as KeysAt does |
| BinaryToJsonSerializer.BlueprintSerializer.ReadKeyArray | BpBinReader/BinaryToJsonSerializer.cs:193-213 | the position and tokens are those of KeyArrayAt |
| BinaryToJsonSerializer.BlueprintSerializer.ReadAnimationCurve | BpBinReader/BinaryToJsonSerializer.cs:188-217 | the position and tokens are those of AnimationCurveAt |
| BinaryToJsonSerializer.BlueprintSerializer.ReadGradient | BpBinReader/BinaryToJsonSerializer.cs:219-259 | the position and tokens are those of GradientAt |
| BinaryToJsonSerializer.BlueprintSerializer.ReadAlphaKeys | BpBinReader/BinaryToJsonSerializer.cs:239-256 | the position and tokens are those of AlphaKeysAt |
| BinaryToJsonSerializer.BlueprintSerializer.ReadColorBlock | BpBinReader/BinaryToJsonSerializer.cs:261-284 | the position and tokens are those of ColorBlockAt |
| BinaryToJsonSerializer.BlueprintSerializer.ReadSequence | BpBinReader/BinaryToJsonSerializer.cs:286-295 | the element loop reads as SequenceAt does |
| BinaryToJsonSerializer.BlueprintSerializer.ReadObject | BpBinReader/BinaryToJsonSerializer.cs:297-328 | the position and tokens are those of ObjectAt |
| BinaryToJsonSerializer.BlueprintSerializer.ReadTypeId | BpBinReader/BinaryToJsonSerializer.cs:335-343 | returns and consumes the 16 bytes TypeIdAt reads, or EndOfStream |
| SerializerProperties.ColorWidth | BpBinReader/BinaryToJsonSerializer.cs:105-118 | Color succeeds exactly when 16 bytes remain and consumes 16 |
| SerializerProperties.ColorBlockWidth | BpBinReader/BinaryToJsonSerializer.cs:261-284 | ColorBlock succeeds exactly when 72 bytes remain and consumes 72 |
| SerializerProperties.EnumInt32Decode | BpBinReader/BinaryToJsonSerializer.cs:81-83 | an EnumInt32 with fewer than 4 bytes left is EndOfStream and a success consumes exactly 4; with 4 bytes it is NullReference when there is no enum schema, and otherwise succeeds exactly when GetEnumName does, writing that name or failing with its error |
| SerializerProperties.FixedWidthDecode | BpBinReader/BinaryToJsonSerializer.cs:57-186 | every fixed-width kind succeeds exactly when its width remains and consumes that width: 4 for Int32, UInt32, Single, Color32 and object refs; 8 for Int64, UInt64, Double, Vector2 and Vector2Int; 1 for Boolean; 12 for Vector3; 16 for Vector4 and Color; 72 for ColorBlock |
| SerializerProperties.KeysWidth | BpBinReader/BinaryToJsonSerializer.cs:194-212 | n keys succeed exactly when n times the key width remains, and consume that much |
| SerializerProperties.KeyArrayWidth | BpBinReader/BinaryToJsonSerializer.cs:193-213 | a counted key array consumes max(count, 0) keys, and succeeds exactly when they fit |
| SerializerProperties.CurveWidth | BpBinReader/BinaryToJsonSerializer.cs:188-217 | AnimationCurve succeeds exactly when 4 + 25·n bytes remain, and consumes that many |
| SerializerProperties.AlphaKeysWidth | BpBinReader/BinaryToJsonSerializer.cs:239-256 | the alpha keys and the mode succeed exactly when 4 + 8·a + 1 bytes remain, and consume that many |
| SerializerProperties.GradientWidth | BpBinReader/BinaryToJsonSerializer.cs:219-259 | a Gradient decodes exactly when 4 + 16·c + 4 + 8·a + 1 bytes remain, c and a being the counts read where each loop starts, and then ends right after them |
| SerializerProperties.GradientColorKeys | BpBinReader/BinaryToJsonSerializer.cs:219-239 | the colour keys of a Gradient succeed exactly when 16·c bytes follow the count, and the alpha half is read from where they end |
| SerializerProperties.NonPositiveLengthIsEmpty | BpBinReader/BinaryToJsonSerializer.cs:286-295 | an array or list whose length is zero or negative is [] after 4 bytes, with no error |
| SerializerProperties.NullIdentifiedObject | BpBinReader/BinaryToJsonSerializer.cs:300-309 | an identified object with the empty id is null after 16 bytes, and no body is read |
| SerializerProperties.NullRecord | BpBinReader/BinaryToJsonSerializer.cs:8-12 | a root with the empty id is null after 16 bytes; neither name nor asset is read |
| SerializerProperties.UnidentifiedObject | BpBinReader/BinaryToJsonSerializer.cs:297-328 | an object that is not identified reads no type id and decodes its declared schema without $type; a missing schema is an error |
| SerializerProperties.UnknownObjectType | BpBinReader/BinaryToJsonSerializer.cs:302-308 | an identified object with a non-zero id that no loaded type carries fails with UnknownTypeId |
| SerializerProperties.UnknownRootType | BpBinReader/BinaryToJsonSerializer.cs:8-14 | a root with a non-zero id that no loaded type carries fails with UnknownTypeId |
| SerializerProperties.ForceNeedsTypeIgnored | BpBinReader/BinaryToJsonSerializer.cs:297-328 | the decoder's output does not depend on ForceNeedsType |
| SerializerProperties.Color32Channels | BpBinReader/BinaryToJsonSerializer.cs:120-136 | the four Color32 channels are the four stored bytes, lowest first |
| SerializerProperties.Color32Reconstructs | BpBinReader/BinaryToJsonSerializer.cs:120-136 | r + g·2^8 + b·2^16 + a·2^24 is the stored 32-bit pattern, which is also the emitted `packed` modulo 2^32 |
| SerializerProperties.RecordShape | BpBinReader/BinaryToJsonSerializer.cs:7-29 | a non-null root is an object whose first property is Data and that starts with $type; the name is read before the asset, but AssetId is written before Name; the record fails exactly when one of the two strings fails |
| SerializerProperties.UInt64AsWrittenCollides | BpBinReader/BinaryToJsonSerializer.cs:66-68 | two different 8-byte UInt64 values give the same token as written |
| SerializerProperties.UInt64Exact | BpBinReader/BinaryToJsonSerializer.cs:66-68 | with the exact integer token, equal UInt64 output means equal input bytes |
| JsonText.EscapeEachAppend | BpBinReader/JsonWriter.cs:118-125 | per-character escaping distributes over concatenation |
| JsonText.QuotedPlain | BpBinReader/JsonWriter.cs:52-58 | a string with no special characters is written as itself in quotes |
| JsonText.EscapeEachPlain | BpBinReader/JsonWriter.cs:118-125 | escaping leaves a string with no special characters unchanged |
| JsonText.ReplaceCharAppend | BpBinReader/JsonWriter.cs:119-124 | one Replace distributes over concatenation |
| JsonText.EscapeAppend | BpBinReader/JsonWriter.cs:118-125 | Escape distributes over concatenation |
| JsonText.ReplaceAbsent | BpBinReader/JsonWriter.cs:119-124 | a Replace whose character is absent changes nothing |
| JsonText.EscapeOne | BpBinReader/JsonWriter.cs:118-125 | the five-Replace chain on one character escapes it once: doubling backslashes first means no backslash is escaped twice |
| JsonText.EscapeIsPerCharacter | BpBinReader/JsonWriter.cs:118-125 | the Replace chain equals escaping each character on its own |
| JsonText.Escape | BpBinReader/JsonWriter.cs:118-125 | no contract of its own; EscapeIsPerCharacter, UnescapeEscape and EscapeShape state that it escapes each special character once, is undone by unescaping, and leaves no raw CR, LF or TAB |
| JsonText.Apply | BpBinReader/JsonWriter.cs:15-116 | no contract of its own; ApplyAppends, CommaRule and IndentFollowsDepth state that each call only appends, the comma rule, and the indent; its property name is the corrected one (see Left out) |
| JsonText.ApplyAll | BpBinReader/JsonWriter.cs:15-116 | no contract of its own; ApplyAllSnoc, ApplyAllAppend and TextOnlyGrows state how runs of calls compose and that they only append |
| JsonText.UnescapeEscape | BpBinReader/JsonWriter.cs:118-125 | unescaping the output of Escape gives back the input, so Escape is injective |
| JsonText.UnescapeEach | BpBinReader/JsonWriter.cs:118-125 | unescaping the per-character escape gives back the input |
| JsonText.EscapeShape | BpBinReader/JsonWriter.cs:118-125 | Escape's output is the input length plus the count of backslash, quote, CR, LF and TAB, and has no raw CR, LF or TAB |
| JsonText.EscapeEachShape | BpBinReader/JsonWriter.cs:118-125 | the same length and character facts for the per-character escape |
| JsonText.Spaces | BpBinReader/JsonWriter.cs:46 | the indent string has max(n, 0) characters |
| JsonText.CommaIfNeeded | BpBinReader/JsonWriter.cs:108-116 | ", " is written exactly when the flag is set, the flag ends cleared and the indent is unchanged |
| JsonText.ApplyAllSnoc | BpBinReader/JsonWriter.cs:15-116 | a run of writer calls followed by one more is that call applied to the run's result |
| JsonText.ApplyAllAppend | BpBinReader/JsonWriter.cs:15-116 | two runs of calls in a row are one run of both |
| JsonText.IndentFollowsDepth | BpBinReader/JsonWriter.cs:15-39 | after any run of calls, the indent has moved by the Begin count minus the End count, so a balanced run restores it |
| JsonText.ApplyAppends | BpBinReader/JsonWriter.cs:15-116 | every call only appends text, and what it appends does not depend on the earlier text |
| JsonText.OpenAppends | BpBinReader/JsonWriter.cs:15-33 | opening a bracket appends the comma, if needed, and the bracket |
| JsonText.ScalarAppends | BpBinReader/JsonWriter.cs:52-106 | a scalar writer only appends |
| JsonText.TextOnlyGrows | BpBinReader/JsonWriter.cs:15-116 | a run of calls only appends, and what it appends does not depend on the earlier text |
| JsonText.CommaRule | BpBinReader/JsonWriter.cs:15-33 | every Begin and scalar call writes ", " first exactly when the flag is set; afterwards the flag is set for scalars and cleared for Begin |
| JsonText.NullStringIsEmpty | BpBinReader/JsonWriter.cs:52-58 | WriteString(null) has the same effect as WriteString("") |
| JsonText.PropertyNameSeparatedOnce | BpBinReader/JsonWriter.cs:41-50 | with the corrected text a property name starts with "," only when the flag was set, then the newline and (indent+2)·2 spaces; the rest of the text is the quoted name and ": ", and the text between the quotes reads back as the name |
| JsonText.PropertyNameDoubleComma | BpBinReader/JsonWriter.cs:41-50 | as written, a property name after a value writes "," and then ", " again before the quote |
| JsonText.PropertyNameText | BpBinReader/JsonWriter.cs:41-50 | no contract of its own; PropertyNameSeparatedOnce states that the corrected text has at most one "," and the name reads back |
| JsonText.PropertyNameTextAsWritten | BpBinReader/JsonWriter.cs:41-50 | no contract of its own; PropertyNameDoubleComma states that, as written, "," is followed by ", " when a value precedes |
| JsonText.TextOutput.constructor | BpBinReader/BinaryToJsonConverter.cs:14 | a new output is empty |
| JsonText.TextOutput.Write | BpBinReader/BinaryToJsonConverter.cs:36 | Write appends the string |
| JsonText.TextOutput.WriteLine | BpBinReader/BinaryToJsonConverter.cs:16-17 | WriteLine appends the string and the newline |
| JsonText.JsonWriter.constructor | BpBinReader/JsonWriter.cs:10-13 | a new writer has indent 0 and no pending comma |
| JsonText.JsonWriter.BeginObject | BpBinReader/JsonWriter.cs:15-20 | writes the comma if needed and "{", increments the indent and clears the flag |
| JsonText.JsonWriter.EndObject | BpBinReader/JsonWriter.cs:22-26 | decrements the indent, writes "}" with no comma, and sets the flag |
| JsonText.JsonWriter.BeginArray | BpBinReader/JsonWriter.cs:28-33 | writes the comma if needed and "[", increments the indent and clears the flag |
| JsonText.JsonWriter.EndArray | BpBinReader/JsonWriter.cs:35-39 | decrements the indent, writes "]" and sets the flag |
| JsonText.JsonWriter.WritePropertyName | BpBinReader/JsonWriter.cs:41-50 | writes the corrected property-name text and clears the flag |
| JsonText.JsonWriter.WriteLineStart | BpBinReader/JsonWriter.cs:42-46 | writes "," when the flag is set, then the newline and the indent, and clears the flag |
| JsonText.JsonWriter.WriteString | BpBinReader/JsonWriter.cs:52-58 | writes the comma if needed and the quoted, escaped string ("" for null), and sets the flag |
| JsonText.JsonWriter.WriteNull | BpBinReader/JsonWriter.cs:60-64 | writes the comma if needed and "null", and sets the flag |
| JsonText.JsonWriter.WriteBool | BpBinReader/JsonWriter.cs:66-70 | writes the comma if needed and "true" or "false", and sets the flag |
| JsonText.JsonWriter.WriteNumber | BpBinReader/JsonWriter.cs:72-94 | writes the comma if needed and the invariant decimal text, and sets the flag |
| JsonText.JsonWriter.WriteRawSingle | BpBinReader/JsonWriter.cs:96-100 | writes the comma if needed and the float's text, and sets the flag |
| JsonText.JsonWriter.WriteRawDouble | BpBinReader/JsonWriter.cs:102-106 | writes the comma if needed and the double's text, and sets the flag |
| JsonText.JsonWriter.WriteCommaIfNeeded | BpBinReader/JsonWriter.cs:108-116 | has the effect CommaIfNeeded describes |
| BinaryToJsonConverter.TocEntryAt | BpBinReader/BinaryToJsonConverter.cs:56-58 | a TOC entry is read exactly when 20 bytes remain (16 id bytes and a UInt32 offset), and consumes 20 |
| BinaryToJsonConverter.TocEntriesAt | BpBinReader/BinaryToJsonConverter.cs:55-60 | reading n entries gives n entries and never moves back |
| BinaryToJsonConverter.TocAt | BpBinReader/BinaryToJsonConverter.cs:47-63 | the TOC read from a pack lists each key once, and its keys are exactly the dictionary's keys |
| BinaryToJsonConverter.TocOfValid | BpBinReader/BinaryToJsonConverter.cs:59 | dictionary insertion keeps the keys distinct and matched to the map |
| BinaryToJsonConverter.Insert | BpBinReader/BinaryToJsonConverter.cs:59 | `toc[key] = offset` keeps the dictionary valid, gives the key the new offset, keeps every other key's offset, and keeps the existing keys in place at the front |
| BinaryToJsonConverter.TocOf | BpBinReader/BinaryToJsonConverter.cs:50-62 | the dictionary has no more keys than entries; TocOfValid, TocKeysAreEntryKeys, TocKeysInOrder and TocLastWins state which keys, in which order, with which offsets |
| BinaryToJsonConverter.ValueState | BpBinReader/BinaryToJsonConverter.cs:127-227 | the nested decoder never moves backwards and leaves the indent where it found it |
| BinaryToJsonConverter.SequenceState | BpBinReader/BinaryToJsonConverter.cs:167-185 | an array or list is balanced and reads forward |
| BinaryToJsonConverter.ElementStates | BpBinReader/BinaryToJsonConverter.cs:170-174 | the elements are balanced and read forward |
| BinaryToJsonConverter.TypeHeader | BpBinReader/BinaryToJsonConverter.cs:207-217 | the $typeId/$typeName/data header opens one level |
| BinaryToJsonConverter.DataHeader | BpBinReader/BinaryToJsonConverter.cs:207-217 | the data-only header opens one level |
| BinaryToJsonConverter.ObjectState | BpBinReader/BinaryToJsonConverter.cs:187-222 | an object value is balanced and reads forward |
| BinaryToJsonConverter.BodyState | BpBinReader/BinaryToJsonConverter.cs:110-125 | an object body is balanced and reads forward |
| BinaryToJsonConverter.FieldStates | BpBinReader/BinaryToJsonConverter.cs:116-123 | the fields are balanced and read forward |
| BinaryToJsonConverter.RootTrailer | BpBinReader/BinaryToJsonConverter.cs:101-107 | the name/assetGuid trailer closes one level |
| BinaryToJsonConverter.RecordState | BpBinReader/BinaryToJsonConverter.cs:74-108 | a blueprint record is balanced and reads forward |
| BinaryToJsonConverter.ElementsErrorPersists | BpBinReader/BinaryToJsonConverter.cs:170-174 | once an element fails, the whole array fails with that error |
| BinaryToJsonConverter.FieldsErrorPersists | BpBinReader/BinaryToJsonConverter.cs:116-123 | once a field fails, the whole body fails with that error |
| BinaryToJsonConverter.LegacySerializer.constructor | BpBinReader/BinaryToJsonConverter.cs:69-72 | the serializer keeps its reader and schemas |
| BinaryToJsonConverter.LegacySerializer.ReadBlueprintAsJson | BpBinReader/BinaryToJsonConverter.cs:74-108 | the reader's position and the writer's text, indent and flag are those of RecordState, or its error; the text only grows, also on an error |
| BinaryToJsonConverter.LegacySerializer.WriteRootTrailer | BpBinReader/BinaryToJsonConverter.cs:101-107 | the writer state is RootTrailer's; the text only grows, also on an error |
| BinaryToJsonConverter.LegacySerializer.WriteTypeHeader | BpBinReader/BinaryToJsonConverter.cs:85-94 | the writer state is TypeHeader's; the text only grows, also on an error |
| BinaryToJsonConverter.LegacySerializer.ReadObjectBodyAsJson | BpBinReader/BinaryToJsonConverter.cs:110-125 | the position and writer state are BodyState's, or its error; the text only grows, also on an error |
| BinaryToJsonConverter.LegacySerializer.ReadFields | BpBinReader/BinaryToJsonConverter.cs:118-121 | the foreach over the fields gives FieldStates' result over all fields, or its error; the text only grows |
| BinaryToJsonConverter.LegacySerializer.ReadField | BpBinReader/BinaryToJsonConverter.cs:119-120 | after the first i fields, field i's name and value give FieldStates' result for i + 1, or its error; the text only grows |
| BinaryToJsonConverter.LegacySerializer.ReadValueAsJson | BpBinReader/BinaryToJsonConverter.cs:127-227 | the position and writer state are ValueState's, or its error; the text only grows, also on an error |
| BinaryToJsonConverter.LegacySerializer.ReadSequence | BpBinReader/BinaryToJsonConverter.cs:167-185 | the element loop gives SequenceState's result; the text only grows, also on an error |
| BinaryToJsonConverter.LegacySerializer.ReadObject | BpBinReader/BinaryToJsonConverter.cs:187-222 | the position and writer state are ObjectState's, or its error; the text only grows, also on an error |
| BinaryToJsonConverter.LegacySerializer.ReadTypeId | BpBinReader/BinaryToJsonConverter.cs:229-237 | returns and consumes the next 16 bytes, or EndOfStream |
| BinaryToJsonConverter.ReadToc | BpBinReader/BinaryToJsonConverter.cs:47-63 | the loop reads the TOC that TocAt describes, or its error |
| BinaryToJsonConverter.TocErrorPersists | BpBinReader/BinaryToJsonConverter.cs:55-60 | once an entry fails, the whole TOC fails with that error |
| BinaryToJsonConverter.DumpErrorPersists | BpBinReader/BinaryToJsonConverter.cs:20-40 | once a blueprint fails, the dump fails with that error |
| BinaryToJsonConverter.Header | BpBinReader/BinaryToJsonConverter.cs:16-17 | no contract of its own; DumpTextFrame states that the dump starts with these two lines |
| BinaryToJsonConverter.Footer | BpBinReader/BinaryToJsonConverter.cs:42-44 | no contract of its own; DumpTextFrame states that the dump ends with these three lines |
| BinaryToJsonConverter.MemberPrefix | BpBinReader/BinaryToJsonConverter.cs:31-36 | no contract of its own; DumpMemberPrefix states that it is ",\n" unless first, then the quoted key and ": " |
| BinaryToJsonConverter.DumpEntry | BpBinReader/BinaryToJsonConverter.cs:20-39 | no contract of its own; DumpSkipsZero and DumpMemberPrefix state that offset 0 is skipped and any other entry writes its prefix and record |
| BinaryToJsonConverter.DumpEntries | BpBinReader/BinaryToJsonConverter.cs:19-40 | no contract of its own; DumpFirstFlag and DumpErrorPersists state the first flag and that an error ends the loop |
| BinaryToJsonConverter.DumpText | BpBinReader/BinaryToJsonConverter.cs:6-45 | no contract of its own; DumpTextFrame states the TOC error, the header and the footer |
| BinaryToJsonConverter.WriteFooter | BpBinReader/BinaryToJsonConverter.cs:42-44 | the footer lines are appended |
| BinaryToJsonConverter.DumpMember | BpBinReader/BinaryToJsonConverter.cs:27-39 | one non-zero entry appends what DumpEntry describes and clears `first`, or fails with its error; either way the output starts with the old text and the member prefix |
| BinaryToJsonConverter.DumpBlueprintPackToJson | BpBinReader/BinaryToJsonConverter.cs:6-45 | the output is DumpText's, or its error; a bad TOC leaves the output untouched, and after it has been read the output starts with the old text and the header even when a record fails |
| BinaryToJsonConverter.DumpMembers | BpBinReader/BinaryToJsonConverter.cs:19-40 | the loop over the TOC appends DumpEntries' text, or fails with its error; the output only grows |
| BinaryToJsonConverter.DumpKey | BpBinReader/BinaryToJsonConverter.cs:21-39 | one pass of the loop: after the first i keys, key i gives DumpEntries' result for i + 1 and the new `first`, or its error; the output only grows |
| ConverterProperties.ApplyGrows | BpBinReader/JsonWriter.cs:15-116 | every writer call only appends |
| ConverterProperties.PropertyNameKey | BpBinReader/JsonWriter.cs:41-50 | a plain key is written as the comma (if set), the newline, the indent and the quoted key with ": " |
| ConverterProperties.StringAfterKey | BpBinReader/JsonWriter.cs:52-58 | a string after a key is written quoted with no comma, and sets the flag |
| ConverterProperties.TypeHeaderText | BpBinReader/BinaryToJsonConverter.cs:207-217 | an identified object opens with "{" and the keys $typeId, $typeName and data, in that order |
| ConverterProperties.DataHeaderText | BpBinReader/BinaryToJsonConverter.cs:202-217 | an unidentified object opens with "{" and the single key data |
| ConverterProperties.RootTrailerText | BpBinReader/BinaryToJsonConverter.cs:101-107 | the root ends with name, then assetGuid, then "}" |
| ConverterProperties.TypeHeaderGrows | BpBinReader/BinaryToJsonConverter.cs:207-217 | the header only appends |
| ConverterProperties.DataHeaderGrows | BpBinReader/BinaryToJsonConverter.cs:207-217 | the header only appends |
| ConverterProperties.ValueGrows | BpBinReader/BinaryToJsonConverter.cs:127-227 | decoding a value only appends text |
| ConverterProperties.SequenceGrows | BpBinReader/BinaryToJsonConverter.cs:167-185 | an array only appends |
| ConverterProperties.ElementsGrow | BpBinReader/BinaryToJsonConverter.cs:170-174 | the elements only append |
| ConverterProperties.ObjectGrows | BpBinReader/BinaryToJsonConverter.cs:187-222 | an object only appends |
| ConverterProperties.BodyGrows | BpBinReader/BinaryToJsonConverter.cs:110-125 | a body only appends |
| ConverterProperties.FieldsGrow | BpBinReader/BinaryToJsonConverter.cs:116-123 | the fields only append |
| ConverterProperties.LegacyUnsupportedKinds | BpBinReader/BinaryToJsonConverter.cs:224-225 | BlueprintRef, Color, Color32, the vectors, Gradient, AnimationCurve and ColorBlock are not supported by the nested decoder |
| ConverterProperties.LegacyEnumIsInt32 | BpBinReader/BinaryToJsonConverter.cs:153-155 | an enum is written as its raw Int32 number |
| ConverterProperties.LegacyObjectRef | BpBinReader/BinaryToJsonConverter.cs:156-165 | an object reference is null for a negative index and the index otherwise |
| ConverterProperties.LegacyEmptySequence | BpBinReader/BinaryToJsonConverter.cs:167-185 | a zero or negative length is "[]" after 4 bytes |
| ConverterProperties.LegacyNullObject | BpBinReader/BinaryToJsonConverter.cs:194-199 | an identified object with the empty id is "null" after 16 bytes |
| ConverterProperties.LegacyShortTypeId | BpBinReader/BinaryToJsonConverter.cs:229-237 | fewer than 16 bytes for a type id is EndOfStream, in a value and at the root |
| ConverterProperties.LegacyNullRecord | BpBinReader/BinaryToJsonConverter.cs:78-82 | a root with the empty id is "null" and nothing more is read |
| ConverterProperties.LegacyIdentifiedObject | BpBinReader/BinaryToJsonConverter.cs:194-217 | an unknown id is an error; otherwise the output starts with $typeId (the id's "N" text), $typeName (the full name) and data |
| ConverterProperties.LegacyUnidentifiedObject | BpBinReader/BinaryToJsonConverter.cs:202-218 | an unidentified object is "{" and the key data; a missing schema is an error |
| ConverterProperties.LegacyRecordTrailer | BpBinReader/BinaryToJsonConverter.cs:84-108 | after the body the name is read before the asset; the record is the body, then name, then assetGuid, then "}", and fails exactly when a string fails |
| ConverterProperties.TocNonPositiveCount | BpBinReader/BinaryToJsonConverter.cs:54-55 | a zero or negative count gives an empty TOC |
| ConverterProperties.TocEntriesWidth | BpBinReader/BinaryToJsonConverter.cs:55-60 | n entries succeed exactly when 20·n bytes remain, and consume them |
| ConverterProperties.TocAtSucceeds | BpBinReader/BinaryToJsonConverter.cs:47-63 | the TOC reads exactly when the count and max(count, 0) entries fit |
| ConverterProperties.TocKeysAreEntryKeys | BpBinReader/BinaryToJsonConverter.cs:55-60 | the TOC's keys are exactly the entries' keys |
| ConverterProperties.TocLastWins | BpBinReader/BinaryToJsonConverter.cs:59 | for a repeated key the TOC holds the offset of its last entry |
| ConverterProperties.TocKeysInOrder | BpBinReader/BinaryToJsonConverter.cs:19-59 | the TOC lists its keys in the order of their first entries, which is the order the dump loop visits them |
| ConverterProperties.TocKeysOccur | BpBinReader/BinaryToJsonConverter.cs:55-60 | every key of the TOC comes from some entry |
| ConverterProperties.RecordGrows | BpBinReader/BinaryToJsonConverter.cs:74-108 | a record only appends |
| ConverterProperties.RootTrailerGrows | BpBinReader/BinaryToJsonConverter.cs:101-107 | the trailer only appends |
| ConverterProperties.DumpMemberPrefix | BpBinReader/BinaryToJsonConverter.cs:31-36 | an emitted entry starts with ",\n" unless it is the first, then its quoted key and ": "; afterwards `first` is false |
| ConverterProperties.DumpFirstFlag | BpBinReader/BinaryToJsonConverter.cs:19-40 | the loop only appends, and `first` stays true exactly while every entry so far had offset 0 |
| ConverterProperties.DumpSkipsZero | BpBinReader/BinaryToJsonConverter.cs:23-25 | entries with offset 0 write nothing and read nothing |
| ConverterProperties.DumpTextFrame | BpBinReader/BinaryToJsonConverter.cs:6-45 | a bad TOC is the dump's error; a dump starts with the two header lines and ends with the footer |
| EnumNames.RuntimePrimitiveType | BpBinReader/TypeSchemaProvider/MetadataLoadContextTypeSchemaProvider.cs:352-364 | any underlying type other than the eight integral ones is not supported |
| EnumNames.ChangeType | BpBinReader/TypeSchemaProvider/MetadataLoadContextTypeSchemaProvider.cs:88 | converting to the underlying type succeeds exactly when the value is in that type's range, and keeps the value |
| EnumNames.ToInt64 | BpBinReader/TypeSchemaProvider/MetadataLoadContextTypeSchemaProvider.cs:89 | converting to long succeeds exactly in the 64-bit range and keeps the value |
| EnumNames.FlagNamesDefined | BpBinReader/TypeSchemaProvider/MetadataLoadContextTypeSchemaProvider.cs:91-93 | the flag scan succeeds exactly when every constant converts to long |
| EnumNames.FlagNamesSnoc | BpBinReader/TypeSchemaProvider/MetadataLoadContextTypeSchemaProvider.cs:91-93 | one more constant adds its name at the end exactly when it overlaps the value |
| EnumNames.FlagNamesMembers | BpBinReader/TypeSchemaProvider/MetadataLoadContextTypeSchemaProvider.cs:91-93 | a name is in the flag list exactly when some constant with that name overlaps the value |
| EnumNames.FlagNamesOfZero | BpBinReader/TypeSchemaProvider/MetadataLoadContextTypeSchemaProvider.cs:91-95 | the value 0 lists no name, so it is written as "" |
| EnumNames.ZeroConstantNeverListed | BpBinReader/TypeSchemaProvider/MetadataLoadContextTypeSchemaProvider.cs:91-93 | a constant whose value is 0 never appears |
| EnumNames.FirstExactFinds | BpBinReader/TypeSchemaProvider/MetadataLoadContextTypeSchemaProvider.cs:97-98 | a non-flags enum gives the first constant, in declaration order, equal to the value |
| EnumNames.FirstExactMisses | BpBinReader/TypeSchemaProvider/MetadataLoadContextTypeSchemaProvider.cs:99-101 | with no equal constant the name is "Unset" |
| EnumNames.FlagNames | BpBinReader/TypeSchemaProvider/MetadataLoadContextTypeSchemaProvider.cs:91-93 | the list has at most one name per constant, and its only failure is Overflow |
| EnumNames.FirstExact | BpBinReader/TypeSchemaProvider/MetadataLoadContextTypeSchemaProvider.cs:96-101 | the name is "Unset" or the name of some constant |
| EnumNames.GetEnumName | BpBinReader/TypeSchemaProvider/MetadataLoadContextTypeSchemaProvider.cs:85-103 | a non-enum is NotAnEnum; the only failures are NotAnEnum, an unsupported underlying type and Overflow; a non-flags enum gives "Unset" or a constant's name |
| EnumNames.GetEnumNameLegacy | BpBinReader/MetadataLoadContextTypeSchemaProvider.cs:28-38 | the same failures as GetEnumName, and the same name for every [Flags] enum |
| Base.JoinSnoc | BpBinReader/MetadataLoadContextTypeSchemaProvider.cs:37 | `string.Join` adds the separator before a part exactly when a part precedes it |
| EnumNames.Int32EnumName | BpBinReader/TypeSchemaProvider/MetadataLoadContextTypeSchemaProvider.cs:85-103 | for an Int32 enum the name is the " \| " join of overlapping constants when the enum is [Flags] and the first exact match otherwise; the older provider always joins |
| EnumNames.FlagNamesOfThree | BpBinReader/MetadataLoadContextTypeSchemaProvider.cs:33-35 | example: A=1, B=2, C=3 at value 3 lists A, B and C |
| EnumNames.LegacyReadsEveryEnumAsFlags | BpBinReader/MetadataLoadContextTypeSchemaProvider.cs:28-38 | example: for a non-flags enum the current provider names 3 as "C", the older one as "A \| B \| C" |
| EnumNames.FlagNamesOfSix | BpBinReader/TypeSchemaProvider/MetadataLoadContextTypeSchemaProvider.cs:91-93 | example: with A=1, B=2, C=4, D=8 the value 6 lists B and C |
| EnumNames.FlagsExample | BpBinReader/TypeSchemaProvider/MetadataLoadContextTypeSchemaProvider.cs:90-95 | example: a [Flags] enum names 6 as "B \| C" |
| TypeModel.NamedKind | BpBinReader/MetadataLoadContextTypeSchemaProvider.cs:84-135 | a full name found in a name table gives that row's kind, which is a plain kind, and only names in the table are found |
| TypeModel.IdenticalKind | BpBinReader/TypeSchemaProvider/MetadataLoadContextTypeSchemaProvider.cs:142-199 | a type identical to a table's required type gives that row's kind, and only such types are found |
| TypeModel.PlainTables | BpBinReader/TypeSchemaProvider/MetadataLoadContextTypeSchemaProvider.cs:142-199 | the primitive and struct tables give only scalar and struct kinds |
| TypeModel.BuildValueSchema | BpBinReader/TypeSchemaProvider/MetadataLoadContextTypeSchemaProvider.cs:141-231 | a built schema is well-formed and carries forceNeedsType on every object inside it; failing is UnsupportedKind |
| TypeModel.BuildValueSchemaLegacy | BpBinReader/MetadataLoadContextTypeSchemaProvider.cs:81-165 | a built schema is well-formed and no object in it is forced; failing is UnsupportedKind |
| TypeModel.BuildComposite | BpBinReader/TypeSchemaProvider/MetadataLoadContextTypeSchemaProvider.cs:201-230 | the array, list and reference rules give well-formed schemas that pass force down |
| TypeModel.BuildCompositeLegacy | BpBinReader/MetadataLoadContextTypeSchemaProvider.cs:137-164 | the same for the older provider, with force false |
| TypeModel.Reference | BpBinReader/TypeSchemaProvider/MetadataLoadContextTypeSchemaProvider.cs:213-230 | UnityObject, BlueprintRef or Object is well-formed and passes force into Object |
| TypeModel.ChosenIsFirst | BpBinReader/TypeSchemaProvider/MetadataLoadContextTypeSchemaProvider.cs:141-231 | a rule is the first applicable one in priority order exactly when it is the one the if-chain picks |
| TypeModel.ChosenComposite | BpBinReader/TypeSchemaProvider/MetadataLoadContextTypeSchemaProvider.cs:201-230 | past the primitive, enum and struct rules, the order is array, list, UnityObject, BlueprintRef, Object |
| TypeModel.TableRules | BpBinReader/TypeSchemaProvider/MetadataLoadContextTypeSchemaProvider.cs:142-199 | every primitive row belongs to the primitive rule and every struct row to the struct rule |
| TypeModel.Classification | BpBinReader/TypeSchemaProvider/MetadataLoadContextTypeSchemaProvider.cs:141-231 | the kind built is that of the first rule that applies in priority order (primitive, enum, struct, array, list, UnityObject, BlueprintRef, Object); it fails only when the array or list rule is first and its element fails |
| TypeModel.ChooseCurrent | BpBinReader/TypeSchemaProvider/MetadataLoadContextTypeSchemaProvider.cs:141-231 | the kind built is the rule the if-chain picks, and failure is only an array or list whose element fails |
| TypeModel.LeadingRulesCurrent | BpBinReader/TypeSchemaProvider/MetadataLoadContextTypeSchemaProvider.cs:142-199 | a primitive, enum or struct type always builds, with the chosen rule's kind and no element |
| TypeModel.CompositeRule | BpBinReader/TypeSchemaProvider/MetadataLoadContextTypeSchemaProvider.cs:201-230 | the composite rules pick array, list, UnityObject, BlueprintRef, Object in that order, and fail only for a failing element |
| TypeModel.CompositeRuleLegacy | BpBinReader/MetadataLoadContextTypeSchemaProvider.cs:137-164 | the same order for the older provider |
| TypeModel.ReferenceRule | BpBinReader/TypeSchemaProvider/MetadataLoadContextTypeSchemaProvider.cs:213-230 | UnityObject subclasses come before BlueprintReferenceBase subclasses, and everything else is Object |
| TypeModel.IsList | BpBinReader/TypeSchemaProvider/MetadataLoadContextTypeSchemaProvider.cs:248-258 | no contract of its own; ElementSchemaCurrent states that a list's element schema is that of its first generic argument |
| TypeModel.IsOrSubclassOf | BpBinReader/TypeSchemaProvider/MetadataLoadContextTypeSchemaProvider.cs:333-343 | no contract of its own; ReferenceRule states the order in which the UnityObject and BlueprintReferenceBase tests apply |
| TypeModel.Placeholder | BpBinReader/TypeSchemaProvider/MetadataLoadContextTypeSchemaProvider.cs:225 | no contract of its own; ObjectSchema states that an identified object gets it, with no fields |
| TypeModel.ObjectSchema | BpBinReader/TypeSchemaProvider/MetadataLoadContextTypeSchemaProvider.cs:221-230 | an Object schema is well-formed, forced as asked, identified exactly when the type is, and then holds the placeholder with no fields |
| TypeModel.ClassificationLegacy | BpBinReader/MetadataLoadContextTypeSchemaProvider.cs:81-165 | the older provider's kind is that of the first applicable rule, matching names instead of type identity; it fails only for an array or list whose element fails |
| TypeModel.ChooseLegacy | BpBinReader/MetadataLoadContextTypeSchemaProvider.cs:81-165 | the older provider's kind is the rule its if-chain picks |
| TypeModel.ObjectSchemaCurrent | BpBinReader/TypeSchemaProvider/MetadataLoadContextTypeSchemaProvider.cs:221-230 | an Object gets the empty placeholder schema when identified and its built schema otherwise, with force passed through |
| TypeModel.ObjectSchemaLegacy | BpBinReader/MetadataLoadContextTypeSchemaProvider.cs:157-164 | the same for the older provider, never forced |
| TypeModel.ElementSchemaCurrent | BpBinReader/TypeSchemaProvider/MetadataLoadContextTypeSchemaProvider.cs:201-211 | an array's element schema is its element type's, a list's is its first generic argument's, both with the same force |
| TypeModel.ElementSchemaLegacy | BpBinReader/MetadataLoadContextTypeSchemaProvider.cs:137-147 | the same for the older provider |
| TypeModel.IdentityImpliesName | BpBinReader/TypeSchemaProvider/MetadataLoadContextTypeSchemaProvider.cs:142-199 | a type the current provider matches by identity is matched by the older provider's name test too |
| TypeModel.BuildSchemaLegacy | BpBinReader/MetadataLoadContextTypeSchemaProvider.cs:74-80 | a type schema keeps the type's name, its full name (or name), the id, and one field per serialized field in order; it fails exactly when a field fails |
| TypeModel.MapFields | BpBinReader/MetadataLoadContextTypeSchemaProvider.cs:75-77 | mapping the field builder keeps order and names, and fails exactly when one field fails |
| SchemaCache.SchemaProvider.constructor | BpBinReader/TypeSchemaProvider/MetadataLoadContextTypeSchemaProvider.cs:44-84 | a new provider has an empty cache |
| SchemaCache.SchemaProvider.Resolve | BpBinReader/TypeSchemaProvider/MetadataLoadContextTypeSchemaProvider.cs:104-119 | the empty id and unknown ids are errors; otherwise the answer is what BuildSchema gives for the type; a build that throws is passed on and leaves the cache as it was; a success is the decoders' Resolve answer, cached under the id; a cached id is answered without building; no other entry changes |
| SchemaCache.BuildsOncePerId | BpBinReader/MetadataLoadContextTypeSchemaProvider.cs:48-53 | BuildSchema has been called exactly once per cached id |
| Binary32.FirstInexactInteger | BpBinReader/Utf8JsonWriterWrapper.cs:50 | 2^24 + 1 and 2^24 round to the same single-precision float |
| Binary32.NearestSingleBits | BpBinReader/Utf8JsonWriterWrapper.cs:50 | no contract of its own; FirstInexactInteger states that 2^24 + 1 and 2^24 convert to the same float, 0x4B800000 |

## Left out

- Reflection and assembly loading: a type is a `TypeDesc` value; `isIdentified`, the UnityObject and BlueprintReferenceBase base types, the loaded-type map and `BuildSchema` are parameters of the provider. Type identity is structural equality of descriptors.
- The reflection-driven parts of the two providers (constructors beyond the loaded-type map, attribute lookups and their caches, `SafeGetTypes`, the serialized-field scan) are left out; only the fields they yield are modelled.
- `IsList`'s cache in the current provider is left out; it memoises a pure test and does not change its answer.
- The current provider's `BuildSchema` lives in game-specific subclasses and is not part of this model; it is a parameter.
- Floating point: Single and Double stay 32- and 64-bit patterns; their text ("R", "G9", "G17", NaN and Infinity handling) is a parameter of the writer.
- UTF-8 decoding of strings is a parameter; ReadString's byte count and prefix are modelled.
- The Guid "N" text is modelled as lower-case hex over the 16 bytes with .NET's byte order for the first three groups; other formats are not used.
- File I/O: `File.Exists`, `File.Open` and `StreamWriter` are left out; the pack is a byte sequence, the output a string with a newline parameter, and `Seek` sets the reader position.
- The `Console.WriteLine` diagnostic in the current decoder's body is left out.
- `AssetProvider` (asset bundles) is left out; neither decoder calls it.
- The `System.Text.Json` writer is a token list: indentation and quoting of `Utf8JsonWriter` are not modelled.
- Entry points, CLI and mod-loader start-up are left out.
- Errors: every exception is an `Err` that ends the decode; the reader position after an error is unspecified (a short ReadBytes still advances past the bytes it got), which nothing can observe because the exception ends the dump.
- BinaryToJsonConverter.DumpBlueprintPackToJson: after an error the output file is left truncated, because the writer is disposed and flushed. The model states that a bad TOC leaves the output unchanged, since the TOC is read before the file is created. It also states that after a record error the output still starts with the old text and the header, and that DumpMember keeps the member prefix. It does not state the rest of the truncated text (the earlier members and the partial record).
- `ITypeSchemaProvider` is modelled by the `Env` of schemas by id and by the enum-name functions; its inconsistent members are left out.
- JsonText.Apply writes one separator before a property name, as intended, where the code as written writes "," and then ", " (see Findings). The same holds for everything built on it: JsonText.JsonWriter.WritePropertyName, BinaryToJsonConverter.RecordState, BinaryToJsonConverter.DumpText, BinaryToJsonConverter.DumpBlueprintPackToJson, ConverterProperties.TypeHeaderText, ConverterProperties.RootTrailerText, ConverterProperties.LegacyIdentifiedObject, ConverterProperties.LegacyRecordTrailer and ConverterProperties.PropertyNameKey. The as-written text is JsonText.PropertyNameTextAsWritten.
- ConverterProperties.PropertyNameKey: states the corrected text, one "," before the line break when the flag is set; as written the key is preceded by ",", the line break, the indentation and then ", " (JsonText.PropertyNameTextAsWritten).
- JsonText.Spaces: a negative count gives the empty string, where `new string(' ', n)` throws. So JsonText.Apply of a property name with indent below -2 succeeds where the source throws. No call site reaches it: every record starts at indent 0 and its calls are balanced, and the JsonWriter methods require indent >= -2.
- JsonText.JsonWriter.WritePropertyName: writes the corrected text; the source's double separator is JsonText.PropertyNameTextAsWritten.
- BinaryToJsonConverter.DumpText: every property name in the dump has the corrected single separator; as written, every name after a value is preceded by ",\n" and then ", ".
- BinaryToJsonConverter.DumpBlueprintPackToJson: the same corrected separator as DumpText.
- BinaryToJsonSerializer.DecodeValue writes a UInt64 as its exact integer (UInt64Token), as intended, where the code as written writes the nearest single-precision float (UInt64TokenAsWritten, see Findings). BinaryToJsonSerializer.BlueprintSerializer.ReadValueAsJson does the same.
- BinaryToJsonSerializer.BlueprintSerializer.ReadValueAsJson: writes the exact UInt64 integer, not the rounded float.
- SchemaCache.SchemaProvider.Resolve: the build is a deterministic function of the type and id; the source's `BuildSchema` is game-specific code that is not part of this model.
- TypeModel.BuildValueSchemaLegacy: the nested `BuildSchema` call for an enum or a non-identified object is the provider parameter `buildSchema`, taken to succeed. It is not connected to TypeModel.BuildSchemaLegacy. So the model leaves out the mutual recursion between the two, a field failure passing up through it, and the recursion not ending on a non-identified type that contains itself.
- TypeModel.BuildValueSchema: the same holds for the current provider's nested `BuildSchema` call.
- The current decoder names enum values with the current provider's `GetEnumName`; pairing it with the older provider is not modelled, though the older naming is (`EnumNames.GetEnumNameLegacy`).

## Findings

| source | as written | input that shows it | evidently intended | confidence | as-written member | corrected member |
|---|---|---|---|---|---|---|
| BpBinReader/BinaryToJsonSerializer.cs:66-68 | a `ulong` passed to `WriteNumberValue` binds to the `float` overload of the wrapper (BpBinReader/Utf8JsonWriterWrapper.cs:50), so the value is rounded to single precision | the UInt64 values 2^24 + 1 and 2^24 print the same number | the exact integer is written, as for Int64 | not executed | SerializerProperties.UInt64AsWrittenCollides | SerializerProperties.UInt64Exact |
| BpBinReader/JsonWriter.cs:41-50 | `WritePropertyName` writes "," when the flag is set and then calls `WriteString`, which sees the same flag and writes ", " again | any property after a value, e.g. a second key in an object | one separator between members | not executed | JsonText.PropertyNameDoubleComma | JsonText.PropertyNameSeparatedOnce |
