/** What the pack dump and its nested decoder promise: the text each
    object wrapper writes, the kinds the nested decoder refuses, the null
    cases, the table of contents, and the separators of the dump loop. */
module ConverterProperties {
  import opened Base
  import opened Numbers
  import opened Guids
  import opened Schema
  import opened BinaryInput
  import opened JsonText
  import opened BinaryToJsonConverter
  import S = BinaryToJsonSerializer

  /** The writer has only appended to the text it started from. */
  predicate Grows(st: WriterState, r: Result<Parsed<WriterState>>)
  {
    r.Ok? ==> st.text <= r.value.value.text
  }

  lemma ApplyGrows(layout: Layout, s: WriterState, c: Call)
    ensures s.text <= Apply(layout, s, c).text
  {
    ApplyAppends(layout, s, c);
  }

  /** What WritePropertyName writes for a key without special characters
      at depth d: the pending comma, a new line, the indentation, the
      quoted key and ": ". */
  function KeyText(nl: string, comma: bool, d: int, key: string): string
  {
    (if comma then "," else "") + nl + Spaces((d + 2) * 2) + "\"" + key + "\": "
  }

  predicate Plain(key: string)
  {
    forall i | 0 <= i < |key| :: !Special(key[i])
  }

  lemma PropertyNameKey(layout: Layout, s: WriterState, key: string)
    requires Plain(key)
    ensures Apply(layout, s, PropertyName(key))
         == WriterState(s.text + KeyText(layout.newLine, s.needComma, s.indent, key), s.indent, false)
  {
    QuotedPlain(key);
  }

  /** A string written right after a property name: no comma, the quoted
      text, and a comma is pending. */
  lemma StringAfterKey(layout: Layout, s: WriterState, value: string)
    requires !s.needComma
    ensures Apply(layout, s, WriteString(Some(value))) == WriterState(s.text + Quoted(value), s.indent, true)
  {
  }

  /** The wrapper of an identified object, as text: the brace, the
      "$typeId" and "$typeName" members, and the name "data", one property
      per line. */
  lemma TypeHeaderText(layout: Layout, st: WriterState, idText: string, typeName: string)
    ensures var nl := layout.newLine;
      var d := st.indent + 1;
      var r := TypeHeader(layout, st, idText, typeName);
      && r.text == CommaIfNeeded(st).text + "{"
           + KeyText(nl, false, d, "$typeId") + Quoted(idText)
           + KeyText(nl, true, d, "$typeName") + Quoted(typeName)
           + KeyText(nl, true, d, "data")
      && r.indent == d && !r.needComma
  {
    var nl := layout.newLine;
    var d := st.indent + 1;
    var open := Apply(layout, st, BeginObject);
    assert open == WriterState(CommaIfNeeded(st).text + "{", d, false);
    assert Plain("$typeId") && Plain("$typeName") && Plain("data");
    PropertyNameKey(layout, open, "$typeId");
    var idKey := Apply(layout, open, PropertyName("$typeId"));
    StringAfterKey(layout, idKey, idText);
    var idValue := Apply(layout, idKey, WriteString(Some(idText)));
    PropertyNameKey(layout, idValue, "$typeName");
    var nameKey := Apply(layout, idValue, PropertyName("$typeName"));
    StringAfterKey(layout, nameKey, typeName);
    var typeValue := Apply(layout, nameKey, WriteString(Some(typeName)));
    PropertyNameKey(layout, typeValue, "data");
  }

  /** The wrapper of an object that is not identified: the brace and the
      name "data" only. */
  lemma DataHeaderText(layout: Layout, st: WriterState)
    ensures var r := DataHeader(layout, st);
      && r.text == CommaIfNeeded(st).text + "{" + KeyText(layout.newLine, false, st.indent + 1, "data")
      && r.indent == st.indent + 1 && !r.needComma
  {
    var open := Apply(layout, st, BeginObject);
    assert open == WriterState(CommaIfNeeded(st).text + "{", st.indent + 1, false);
    assert Plain("data");
    PropertyNameKey(layout, open, "data");
  }

  /** What the root writes after its body: the "name" member, then the
      "assetGuid" member, then the closing brace. */
  lemma RootTrailerText(layout: Layout, st: WriterState, name: string, asset: string)
    ensures var nl := layout.newLine;
      var r := RootTrailer(layout, st, name, asset);
      && r.text == st.text
           + KeyText(nl, st.needComma, st.indent, "name") + Quoted(name)
           + KeyText(nl, true, st.indent, "assetGuid") + Quoted(asset) + "}"
      && r.indent == st.indent - 1 && r.needComma
  {
    assert Plain("name") && Plain("assetGuid");
    PropertyNameKey(layout, st, "name");
    var nameKey := Apply(layout, st, PropertyName("name"));
    StringAfterKey(layout, nameKey, name);
    var nameValue := Apply(layout, nameKey, WriteString(Some(name)));
    PropertyNameKey(layout, nameValue, "assetGuid");
    var assetKey := Apply(layout, nameValue, PropertyName("assetGuid"));
    StringAfterKey(layout, assetKey, asset);
  }

  lemma TypeHeaderGrows(layout: Layout, st: WriterState, idText: string, typeName: string)
    ensures st.text <= TypeHeader(layout, st, idText, typeName).text
  {
    TypeHeaderText(layout, st, idText, typeName);
  }

  lemma DataHeaderGrows(layout: Layout, st: WriterState)
    ensures st.text <= DataHeader(layout, st).text
  {
    DataHeaderText(layout, st);
  }

  /** The nested decoder only appends to the output: each value, array,
      object and field list leaves the text written before it in place. */
  lemma {:induction false} ValueGrows(env: S.Env, layout: Layout, data: seq<byte>, pos: nat, v: ValueSchema, st: WriterState)
    ensures Grows(st, ValueState(env, layout, data, pos, v, st))
    decreases Remaining(data, pos), v, 1, 0
  {
    match v.kind
    case Array => SequenceGrows(env, layout, data, pos, v, st);
    case List => SequenceGrows(env, layout, data, pos, v, st);
    case Object => ObjectGrows(env, layout, data, pos, v, st);
    case _ =>
      forall c: Call
        ensures st.text <= Apply(layout, st, c).text
      {
        ApplyGrows(layout, st, c);
      }
  }

  lemma {:induction false} SequenceGrows(env: S.Env, layout: Layout, data: seq<byte>, pos: nat, v: ValueSchema, st: WriterState)
    ensures Grows(st, SequenceState(env, layout, data, pos, v, st))
    decreases Remaining(data, pos), v, 0, 0
  {
    var len := Int32At(data, pos);
    if len.Ok? {
      var open := Apply(layout, st, BeginArray);
      ApplyGrows(layout, st, BeginArray);
      if Count(len.value.value) == 0 {
        ApplyGrows(layout, open, EndArray);
      } else if v.element.Some? {
        var items := ElementStates(env, layout, data, len.value.next, v.element.value, Count(len.value.value), open);
        ElementsGrow(env, layout, data, len.value.next, v.element.value, Count(len.value.value), open);
        if items.Ok? {
          ApplyGrows(layout, items.value.value, EndArray);
        }
      }
    }
  }

  lemma {:induction false} ElementsGrow(env: S.Env, layout: Layout, data: seq<byte>, start: nat, element: ValueSchema, n: nat, st: WriterState)
    ensures Grows(st, ElementStates(env, layout, data, start, element, n, st))
    decreases Remaining(data, start), element, 2, n
  {
    if n > 0 {
      var prev := ElementStates(env, layout, data, start, element, n - 1, st);
      ElementsGrow(env, layout, data, start, element, n - 1, st);
      if prev.Ok? {
        ValueGrows(env, layout, data, prev.value.next, element, prev.value.value);
      }
    }
  }

  lemma {:induction false} ObjectGrows(env: S.Env, layout: Layout, data: seq<byte>, pos: nat, v: ValueSchema, st: WriterState)
    ensures Grows(st, ObjectState(env, layout, data, pos, v, st))
    decreases Remaining(data, pos), v, 0, 0
  {
    if v.isIdentifiedType {
      var id := S.TypeIdAt(data, pos);
      if id.Ok? {
        if id.value.value == Empty {
          ApplyGrows(layout, st, WriteNull);
        } else {
          var s := S.Resolve(env.types, id.value.value);
          if s.Ok? {
            var header := TypeHeader(layout, st, FormatN(id.value.value), s.value.fullName);
            TypeHeaderGrows(layout, st, FormatN(id.value.value), s.value.fullName);
            var body := BodyState(env, layout, data, id.value.next, Some(s.value), header);
            BodyGrows(env, layout, data, id.value.next, Some(s.value), header);
            if body.Ok? {
              ApplyGrows(layout, body.value.value, EndObject);
            }
          }
        }
      }
    } else {
      var header := DataHeader(layout, st);
      DataHeaderGrows(layout, st);
      var body := BodyState(env, layout, data, pos, v.objectType, header);
      BodyGrows(env, layout, data, pos, v.objectType, header);
      if body.Ok? {
        ApplyGrows(layout, body.value.value, EndObject);
      }
    }
  }

  lemma {:induction false} BodyGrows(env: S.Env, layout: Layout, data: seq<byte>, pos: nat, schema: Option<TypeSchema>, st: WriterState)
    ensures Grows(st, BodyState(env, layout, data, pos, schema, st))
    decreases Remaining(data, pos), schema, 0, 0
  {
    if schema.Some? {
      var s := schema.value;
      var open := Apply(layout, st, BeginObject);
      ApplyGrows(layout, st, BeginObject);
      var fields := FieldStates(env, layout, data, pos, s, |s.fields|, open);
      FieldsGrow(env, layout, data, pos, s, |s.fields|, open);
      if fields.Ok? {
        ApplyGrows(layout, fields.value.value, EndObject);
      }
    }
  }

  lemma {:induction false} FieldsGrow(env: S.Env, layout: Layout, data: seq<byte>, start: nat, s: TypeSchema, k: nat, st: WriterState)
    requires k <= |s.fields|
    ensures Grows(st, FieldStates(env, layout, data, start, s, k, st))
    decreases Remaining(data, start), s, 0, k
  {
    if k > 0 {
      var prev := FieldStates(env, layout, data, start, s, k - 1, st);
      FieldsGrow(env, layout, data, start, s, k - 1, st);
      if prev.Ok? {
        var f := s.fields[k - 1];
        assert f in s.fields;
        var named := Apply(layout, prev.value.value, PropertyName(f.name));
        ApplyGrows(layout, prev.value.value, PropertyName(f.name));
        ValueGrows(env, layout, data, prev.value.next, f.value, named);
      }
    }
  }

  /** The nested decoder has no case for these kinds and throws
      NotSupported before reading anything. */
  lemma LegacyUnsupportedKinds(env: S.Env, layout: Layout, data: seq<byte>, pos: nat, v: ValueSchema, st: WriterState)
    requires v.kind in {BlueprintRef, Color, Color32, Vector2, Vector3, Vector4, Vector2Int, Gradient, AnimationCurve, ColorBlock}
    ensures ValueState(env, layout, data, pos, v, st) == Err(UnsupportedKind)
  {
  }

  /** An enum value is written as its raw int32 number, exactly as an Int32. */
  lemma LegacyEnumIsInt32(env: S.Env, layout: Layout, data: seq<byte>, pos: nat, v: ValueSchema, st: WriterState)
    requires v.kind == EnumInt32
    ensures ValueState(env, layout, data, pos, v, st) == ValueState(env, layout, data, pos, v.(kind := Int32), st)
    ensures pos + 4 <= |data| ==>
      ValueState(env, layout, data, pos, v, st)
        == Ok(Parsed(WriterState(CommaIfNeeded(st).text + DecimalText(Signed32(Word32(data, pos))), st.indent, true), pos + 4))
  {
  }

  /** A UnityObjectRef index: null when negative, otherwise the number. */
  lemma LegacyObjectRef(env: S.Env, layout: Layout, data: seq<byte>, pos: nat, v: ValueSchema, st: WriterState)
    requires v.kind == UnityObjectRef && pos + 4 <= |data|
    ensures var index := Signed32(Word32(data, pos));
      ValueState(env, layout, data, pos, v, st)
        == Ok(Parsed(WriterState(CommaIfNeeded(st).text + (if index < 0 then "null" else DecimalText(index)), st.indent, true), pos + 4))
  {
  }

  /** An array or list whose length is zero or negative is written as [],
      reads only its length and needs no element schema. */
  lemma LegacyEmptySequence(env: S.Env, layout: Layout, data: seq<byte>, pos: nat, v: ValueSchema, st: WriterState)
    requires v.kind in {Array, List} && pos + 4 <= |data| && Signed32(Word32(data, pos)) <= 0
    ensures ValueState(env, layout, data, pos, v, st)
         == Ok(Parsed(WriterState(CommaIfNeeded(st).text + "[" + "]", st.indent, true), pos + 4))
  {
    assert Int32At(data, pos) == Ok(Parsed(Signed32(Word32(data, pos)), pos + 4));
  }

  /** An identified object whose 16-byte id is all zero is written as null;
      its body is not read. */
  lemma LegacyNullObject(env: S.Env, layout: Layout, data: seq<byte>, pos: nat, v: ValueSchema, st: WriterState)
    requires v.kind == Object && v.isIdentifiedType
    requires pos + 16 <= |data| && data[pos..pos + 16] == Empty
    ensures ValueState(env, layout, data, pos, v, st)
         == Ok(Parsed(WriterState(CommaIfNeeded(st).text + "null", st.indent, true), pos + 16))
  {
  }

  /** Fewer than 16 bytes where an identified object's id belongs: EndOfStream. */
  lemma LegacyShortTypeId(env: S.Env, layout: Layout, data: seq<byte>, pos: nat, v: ValueSchema, st: WriterState)
    requires v.kind == Object && v.isIdentifiedType && |data| < pos + 16
    ensures ValueState(env, layout, data, pos, v, st) == Err(EndOfStream)
    ensures RecordState(env, layout, data, pos, st) == Err(EndOfStream)
  {
  }

  /** A root whose id is all zero is written as null; neither its body nor
      its name and asset strings are read. */
  lemma LegacyNullRecord(env: S.Env, layout: Layout, data: seq<byte>, pos: nat, st: WriterState)
    requires pos + 16 <= |data| && data[pos..pos + 16] == Empty
    ensures RecordState(env, layout, data, pos, st)
         == Ok(Parsed(WriterState(CommaIfNeeded(st).text + "null", st.indent, true), pos + 16))
  {
  }

  /** An identified object opens with "$typeId" (the id in "N" form),
      "$typeName" (the resolved type's full name) and the name "data"; an
      id the provider does not know is an error. */
  lemma LegacyIdentifiedObject(env: S.Env, layout: Layout, data: seq<byte>, pos: nat, v: ValueSchema, st: WriterState)
    requires v.kind == Object && v.isIdentifiedType
    requires pos + 16 <= |data| && data[pos..pos + 16] != Empty
    ensures var id: Guid := data[pos..pos + 16];
      var r := ValueState(env, layout, data, pos, v, st);
      && (id !in env.types ==> r == Err(UnknownTypeId))
      && (r.Ok? ==>
            CommaIfNeeded(st).text + "{"
              + KeyText(layout.newLine, false, st.indent + 1, "$typeId") + Quoted(FormatN(id))
              + KeyText(layout.newLine, true, st.indent + 1, "$typeName") + Quoted(env.types[id].fullName)
              + KeyText(layout.newLine, true, st.indent + 1, "data")
            <= r.value.value.text)
  {
    var id: Guid := data[pos..pos + 16];
    if id in env.types {
      var s := env.types[id];
      var header := TypeHeader(layout, st, FormatN(id), s.fullName);
      TypeHeaderText(layout, st, FormatN(id), s.fullName);
      var body := BodyState(env, layout, data, pos + 16, Some(s), header);
      BodyGrows(env, layout, data, pos + 16, Some(s), header);
      if body.Ok? {
        ApplyGrows(layout, body.value.value, EndObject);
      }
    }
  }

  /** An object that is not identified reads no id and opens with the name
      "data" only; without a schema it is an error. */
  lemma LegacyUnidentifiedObject(env: S.Env, layout: Layout, data: seq<byte>, pos: nat, v: ValueSchema, st: WriterState)
    requires v.kind == Object && !v.isIdentifiedType
    ensures var r := ValueState(env, layout, data, pos, v, st);
      && (v.objectType.None? ==> r == Err(MissingSchema))
      && (r.Ok? ==> CommaIfNeeded(st).text + "{" + KeyText(layout.newLine, false, st.indent + 1, "data") <= r.value.value.text)
  {
    var header := DataHeader(layout, st);
    DataHeaderText(layout, st);
    var body := BodyState(env, layout, data, pos, v.objectType, header);
    BodyGrows(env, layout, data, pos, v.objectType, header);
    if body.Ok? {
      ApplyGrows(layout, body.value.value, EndObject);
    }
  }

  /** After the root's body come two strings, the name first and the asset
      id second; they are written as "name" and "assetGuid" in that order
      and the root object is closed. */
  lemma LegacyRecordTrailer(env: S.Env, layout: Layout, data: seq<byte>, pos: nat, st: WriterState)
    requires pos + 16 <= |data| && data[pos..pos + 16] != Empty && data[pos..pos + 16] in env.types
    requires var id: Guid := data[pos..pos + 16];
      BodyState(env, layout, data, pos + 16, Some(env.types[id]), TypeHeader(layout, st, FormatN(id), env.types[id].fullName)).Ok?
    ensures var id: Guid := data[pos..pos + 16];
      var body := BodyState(env, layout, data, pos + 16, Some(env.types[id]), TypeHeader(layout, st, FormatN(id), env.types[id].fullName)).value;
      var name := StringAt(env.utf8, data, body.next);
      var asset := if name.Ok? then StringAt(env.utf8, data, name.value.next) else name;
      var r := RecordState(env, layout, data, pos, st);
      && (r.Ok? <==> name.Ok? && asset.Ok?)
      && (r.Ok? ==>
            && r.value.next == asset.value.next
            && r.value.value.text == body.value.text
                 + KeyText(layout.newLine, body.value.needComma, body.value.indent, "name") + Quoted(name.value.value)
                 + KeyText(layout.newLine, true, body.value.indent, "assetGuid") + Quoted(asset.value.value) + "}")
  {
    var id: Guid := data[pos..pos + 16];
    var body := BodyState(env, layout, data, pos + 16, Some(env.types[id]), TypeHeader(layout, st, FormatN(id), env.types[id].fullName)).value;
    var name := StringAt(env.utf8, data, body.next);
    if name.Ok? {
      var asset := StringAt(env.utf8, data, name.value.next);
      if asset.Ok? {
        RootTrailerText(layout, body.value, name.value.value, asset.value.value);
      }
    }
  }

  /** ReadToc with a count of zero or less: an empty table, and only the
      count is read. */
  lemma TocNonPositiveCount(data: seq<byte>)
    requires 4 <= |data| && Signed32(Word32(data, 0)) <= 0
    ensures TocAt(data) == Ok(Toc([], map[]))
  {
    assert Int32At(data, 0) == Ok(Parsed(Signed32(Word32(data, 0)), 4));
  }

  /** Each table entry takes 20 bytes: n entries are read exactly when
      20·n bytes remain, and end 20·n bytes further on. */
  lemma {:induction false} TocEntriesWidth(data: seq<byte>, start: nat, n: nat)
    requires start <= |data|
    ensures var r := TocEntriesAt(data, start, n);
      && (r.Ok? <==> start + 20 * n <= |data|)
      && (r.Ok? ==> r.value.next == start + 20 * n)
  {
    if n > 0 {
      TocEntriesWidth(data, start, n - 1);
      var prev := TocEntriesAt(data, start, n - 1);
      if prev.Ok? {
        assert TocEntriesAt(data, start, n).Ok? <==> TocEntryAt(data, prev.value.next).Ok?;
      }
    }
  }

  /** ReadToc succeeds exactly when the pack holds the count and all the
      entries it announces. */
  lemma TocAtSucceeds(data: seq<byte>)
    ensures TocAt(data).Ok? <==> 4 <= |data| && 4 + 20 * Count(Signed32(Word32(data, 0))) <= |data|
  {
    if 4 <= |data| {
      assert Int32At(data, 0) == Ok(Parsed(Signed32(Word32(data, 0)), 4));
      TocEntriesWidth(data, 4, Count(Signed32(Word32(data, 0))));
    }
  }

  /** The table holds exactly the ids of the entries read. */
  lemma {:induction false} TocKeysAreEntryKeys(entries: seq<TocEntry>, key: string)
    ensures key in TocOf(entries).offsets <==> exists i :: 0 <= i < |entries| && entries[i].key == key
  {
    if entries != [] {
      var init := entries[..|entries| - 1];
      TocKeysAreEntryKeys(init, key);
      if key in TocOf(init).offsets {
        var i :| 0 <= i < |init| && init[i].key == key;
        assert entries[i].key == key;
      }
      if exists i :: 0 <= i < |entries| && entries[i].key == key {
        var i :| 0 <= i < |entries| && entries[i].key == key;
        if i < |init| {
          assert init[i].key == key;
        }
      }
    }
  }

  /** A repeated id keeps the offset of its last entry. */
  lemma {:induction false} TocLastWins(entries: seq<TocEntry>, i: nat)
    requires i < |entries|
    requires forall j | i < j < |entries| :: entries[j].key != entries[i].key
    ensures entries[i].key in TocOf(entries).offsets
    ensures TocOf(entries).offsets[entries[i].key] == entries[i].offset
  {
    var init := entries[..|entries| - 1];
    if i < |init| {
      TocLastWins(init, i);
    }
  }

  /** The index of the first entry carrying `key`, or the number of
      entries when none does. */
  function FirstIndex(entries: seq<TocEntry>, key: string): (r: nat)
    ensures r <= |entries|
    ensures r < |entries| ==> entries[r].key == key
    ensures forall m | 0 <= m < r :: entries[m].key != key
  {
    if entries == [] then 0
    else if entries[0].key == key then 0
    else 1 + FirstIndex(entries[1..], key)
  }

  /** Every key of the table occurs among the entries. */
  lemma TocKeysOccur(entries: seq<TocEntry>, i: nat)
    requires i < |TocOf(entries).keys|
    ensures FirstIndex(entries, TocOf(entries).keys[i]) < |entries|
  {
    var key := TocOf(entries).keys[i];
    TocOfValid(entries);
    assert key in TocOf(entries).offsets;
    TocKeysAreEntryKeys(entries, key);
    var m :| 0 <= m < |entries| && entries[m].key == key;
  }

  /** The table lists its keys in the order of their first entries, which is
      the order the dump writes its members in. */
  lemma {:induction false} TocKeysInOrder(entries: seq<TocEntry>, i: nat, j: nat)
    requires i < j < |TocOf(entries).keys|
    ensures FirstIndex(entries, TocOf(entries).keys[i]) < FirstIndex(entries, TocOf(entries).keys[j])
  {
    var init := entries[..|entries| - 1];
    var last := entries[|entries| - 1];
    var before := TocOf(init);
    var keys := TocOf(entries).keys;
    assert entries == init + [last];
    TocOfValid(init);
    if j < |before.keys| {
      assert keys[i] == before.keys[i] && keys[j] == before.keys[j];
      TocKeysInOrder(init, i, j);
      TocKeysOccur(init, j);
      FirstIndexExtend(init, last, keys[i]);
      FirstIndexExtend(init, last, keys[j]);
    } else {
      assert last.key !in before.offsets && keys == before.keys + [last.key] && j == |before.keys|;
      assert keys[i] == before.keys[i];
      TocKeysOccur(init, i);
      FirstIndexExtend(init, last, keys[i]);
      TocKeysAreEntryKeys(init, last.key);
      FirstIndexNew(init, last);
    }
  }

  /** Appending an entry leaves the first index of a key already present. */
  lemma FirstIndexExtend(init: seq<TocEntry>, e: TocEntry, key: string)
    requires FirstIndex(init, key) < |init|
    ensures FirstIndex(init + [e], key) == FirstIndex(init, key)
  {
    var b := FirstIndex(init, key);
    assert (init + [e])[b] == init[b];
  }

  /** An entry whose key is new has its own index as the first one. */
  lemma FirstIndexNew(init: seq<TocEntry>, e: TocEntry)
    requires forall m | 0 <= m < |init| :: init[m].key != e.key
    ensures FirstIndex(init + [e], e.key) == |init|
  {
    assert (init + [e])[|init|] == e;
  }

  /** The text of the nested decoder's root only grows. */
  lemma RecordGrows(env: S.Env, layout: Layout, data: seq<byte>, pos: nat, st: WriterState)
    ensures Grows(st, RecordState(env, layout, data, pos, st))
  {
    var id := S.TypeIdAt(data, pos);
    if id.Ok? {
      if id.value.value == Empty {
        ApplyGrows(layout, st, WriteNull);
      } else if id.value.value in env.types {
        var s := env.types[id.value.value];
        var header := TypeHeader(layout, st, FormatN(id.value.value), s.fullName);
        TypeHeaderGrows(layout, st, FormatN(id.value.value), s.fullName);
        var body := BodyState(env, layout, data, id.value.next, Some(s), header);
        BodyGrows(env, layout, data, id.value.next, Some(s), header);
        if body.Ok? {
          var name := StringAt(env.utf8, data, body.value.next);
          if name.Ok? {
            var asset := StringAt(env.utf8, data, name.value.next);
            if asset.Ok? {
              RootTrailerGrows(layout, body.value.value, name.value.value, asset.value.value);
              assert RecordState(env, layout, data, pos, st)
                  == Ok(Parsed(RootTrailer(layout, body.value.value, name.value.value, asset.value.value), asset.value.next));
            }
          }
        }
      }
    }
  }

  lemma RootTrailerGrows(layout: Layout, st: WriterState, name: string, asset: string)
    ensures st.text <= RootTrailer(layout, st, name, asset).text
  {
    RootTrailerText(layout, st, name, asset);
  }

  /** A member of the dump: a "," line unless it is the first, then the
      quoted id and ": ", then the record; no later member is first. */
  lemma DumpMemberPrefix(env: S.Env, layout: Layout, data: seq<byte>, key: string, offset: nat, st: DumpState)
    requires offset != 0
    ensures var r := DumpEntry(env, layout, data, key, offset, st);
      r.Ok? ==> && st.text + (if st.first then "" else "," + layout.newLine) + "    \"" + key + "\": " <= r.value.text
                && !r.value.first
  {
    var prefix := st.text + MemberPrefix(layout.newLine, st.first, key);
    assert prefix == st.text + (if st.first then "" else "," + layout.newLine) + "    \"" + key + "\": ";
    var rec := RecordState(env, layout, data, offset, WriterState(prefix, 0, false));
    RecordGrows(env, layout, data, offset, WriterState(prefix, 0, false));
    assert DumpEntry(env, layout, data, key, offset, st)
      == if rec.Ok? then Ok(DumpState(rec.value.value.text, false)) else Err(rec.error);
  }

  /** The dump loop after i keys: the text only grows, and no member has
      been written exactly when every offset so far was zero. */
  lemma {:induction false} DumpFirstFlag(env: S.Env, layout: Layout, data: seq<byte>, toc: Toc, i: nat, st: DumpState)
    requires TocValid(toc) && i <= |toc.keys|
    ensures var r := DumpEntries(env, layout, data, toc, i, st);
      r.Ok? ==> && st.text <= r.value.text
                && (r.value.first <==> st.first && forall j | 0 <= j < i :: toc.offsets[toc.keys[j]] == 0)
  {
    if i > 0 {
      DumpFirstFlag(env, layout, data, toc, i - 1, st);
      var prev := DumpEntries(env, layout, data, toc, i - 1, st);
      if prev.Ok? {
        var key := toc.keys[i - 1];
        assert key in toc.offsets;
        if toc.offsets[key] != 0 {
          DumpMemberPrefix(env, layout, data, key, toc.offsets[key], prev.value);
        }
      }
    }
  }

  /** Entries whose offset is zero write nothing and read nothing. */
  lemma {:induction false} DumpSkipsZero(env: S.Env, layout: Layout, data: seq<byte>, toc: Toc, i: nat, st: DumpState)
    requires TocValid(toc) && i <= |toc.keys|
    requires forall j | 0 <= j < i :: toc.offsets[toc.keys[j]] == 0
    ensures DumpEntries(env, layout, data, toc, i, st) == Ok(st)
  {
    if i > 0 {
      DumpSkipsZero(env, layout, data, toc, i - 1, st);
    }
  }

  /** The dump writes the opening lines first and the closing lines last;
      a table it cannot read is reported before anything is written. */
  lemma DumpTextFrame(env: S.Env, layout: Layout, data: seq<byte>, text: string)
    ensures var r := DumpText(env, layout, data, text);
      && (TocAt(data).Err? ==> r == Err(TocAt(data).error))
      && (r.Ok? ==> && text + Header(layout.newLine) <= r.value
                    && r.value[|r.value| - |Footer(layout.newLine)|..] == Footer(layout.newLine))
  {
    var toc := TocAt(data);
    if toc.Ok? {
      var start := DumpState(text + Header(layout.newLine), true);
      DumpFirstFlag(env, layout, data, toc.value, |toc.value.keys|, start);
    }
  }
}
