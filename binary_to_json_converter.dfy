/** The pack dump: the table of contents of a blueprint pack, the loop that
    writes one JSON member per blueprint, and the older nested decoder it
    uses, which writes through the hand-written JsonWriter. The functions
    state what is read and which writer calls are made; the class and the
    methods do it step by step and are proved to agree with them. */
module BinaryToJsonConverter {
  import opened Base
  import opened Numbers
  import opened Guids
  import opened Schema
  import opened BinaryInput
  import opened JsonText
  import S = BinaryToJsonSerializer

  /** One table-of-contents entry: the blueprint id as ToString("N") and
      the offset of its record in the pack. */
  datatype TocEntry = TocEntry(key: string, offset: nat)

  /** A Dictionary<string, uint>: its keys in the order they were first
      added (the order a dictionary without removals enumerates them) and
      the value each key holds. */
  datatype Toc = Toc(keys: seq<string>, offsets: map<string, nat>)

  predicate TocValid(t: Toc)
  {
    && (forall i, j | 0 <= i < j < |t.keys| :: t.keys[i] != t.keys[j])
    && t.offsets.Keys == set k | k in t.keys
  }

  /** `toc[key] = offset`: a new key goes to the end, a known key keeps its
      place and takes the new value. */
  function Insert(t: Toc, key: string, offset: nat): (r: Toc)
    ensures TocValid(t) ==> TocValid(r)
    ensures key in r.offsets && r.offsets[key] == offset
    ensures forall k | k in t.offsets && k != key :: k in r.offsets && r.offsets[k] == t.offsets[k]
    ensures t.keys <= r.keys
  {
    Toc(if key in t.offsets then t.keys else t.keys + [key], t.offsets[key := offset])
  }

  /** The dictionary the entries build, inserted in order. */
  function TocOf(entries: seq<TocEntry>): (r: Toc)
    ensures |r.keys| <= |entries|
  {
    if entries == [] then Toc([], map[])
    else
      var last := entries[|entries| - 1];
      Insert(TocOf(entries[..|entries| - 1]), last.key, last.offset)
  }

  /** One pass of the ReadToc loop: `Read(guidBytes, 0, 16)`, whose count is
      not checked, then ReadUInt32. When fewer than 16 bytes are left the
      read takes what remains and ReadUInt32 then hits the end. */
  function TocEntryAt(data: seq<byte>, pos: nat): (r: Result<Parsed<TocEntry>>)
    ensures r.Ok? <==> pos + 20 <= |data|
    ensures r.Ok? ==> r.value.next == pos + 20
  {
    var got := BytesUpTo(data, pos, 16);
    var offset :- UInt32At(data, pos + |got|);
    assert |got| == 16;
    Ok(Parsed(TocEntry(FormatN(got), offset.value), offset.next))
  }

  /** The first n entries of the table, starting at `start`. */
  function TocEntriesAt(data: seq<byte>, start: nat, n: nat): (r: Result<Parsed<seq<TocEntry>>>)
    ensures r.Ok? ==> |r.value.value| == n && start <= r.value.next
  {
    if n == 0 then Ok(Parsed([], start))
    else
      var prev :- TocEntriesAt(data, start, n - 1);
      var e :- TocEntryAt(data, prev.next);
      Ok(Parsed(prev.value + [e.value], e.next))
  }

  /** ReadToc: an int32 count from offset 0, then that many entries (none
      when the count is zero or negative). */
  function TocAt(data: seq<byte>): (r: Result<Toc>)
    ensures r.Ok? ==> TocValid(r.value)
  {
    var count :- Int32At(data, 0);
    var entries :- TocEntriesAt(data, count.next, Count(count.value));
    TocOfValid(entries.value);
    Ok(TocOf(entries.value))
  }

  /** Every key is listed once, and exactly the keys in the map are listed. */
  lemma {:induction false} TocOfValid(entries: seq<TocEntry>)
    ensures TocValid(TocOf(entries))
  {
    if entries != [] {
      TocOfValid(entries[..|entries| - 1]);
    }
  }

  /** The decode keeps the writer's depth and never moves the reader back. */
  predicate Balanced(pos: nat, st: WriterState, r: Result<Parsed<WriterState>>)
  {
    r.Ok? ==> pos <= r.value.next && r.value.value.indent == st.indent
  }

  /** ReadValueAsJson of the nested decoder: the writer's state after one
      value of schema `v`, written from state `st`. Kinds it has no case
      for are NotSupported. */
  function ValueState(env: S.Env, layout: Layout, data: seq<byte>, pos: nat, v: ValueSchema, st: WriterState): (r: Result<Parsed<WriterState>>)
    ensures Balanced(pos, st, r)
    decreases Remaining(data, pos), v, 1, 0
  {
    match v.kind
    case Int32 =>
      var x :- Int32At(data, pos);
      Ok(Parsed(Apply(layout, st, WriteNumber(x.value)), x.next))
    case UInt32 =>
      var x :- UInt32At(data, pos);
      Ok(Parsed(Apply(layout, st, WriteNumber(x.value)), x.next))
    case Int64 =>
      var x :- Int64At(data, pos);
      Ok(Parsed(Apply(layout, st, WriteNumber(x.value)), x.next))
    case UInt64 =>
      var x :- UInt64At(data, pos);
      Ok(Parsed(Apply(layout, st, WriteNumber(x.value)), x.next))
    case Single =>
      var x :- SingleAt(data, pos);
      Ok(Parsed(Apply(layout, st, WriteRawSingle(x.value)), x.next))
    case Double =>
      var x :- DoubleAt(data, pos);
      Ok(Parsed(Apply(layout, st, WriteRawDouble(x.value)), x.next))
    case Boolean =>
      var x :- BooleanAt(data, pos);
      Ok(Parsed(Apply(layout, st, WriteBool(x.value)), x.next))
    case String =>
      var x :- StringAt(env.utf8, data, pos);
      Ok(Parsed(Apply(layout, st, WriteString(Some(x.value))), x.next))
    case EnumInt32 =>
      var x :- Int32At(data, pos);
      Ok(Parsed(Apply(layout, st, WriteNumber(x.value)), x.next))
    case UnityObjectRef =>
      var x :- Int32At(data, pos);
      Ok(Parsed(Apply(layout, st, IndexCall(x.value)), x.next))
    case Array => SequenceState(env, layout, data, pos, v, st)
    case List => SequenceState(env, layout, data, pos, v, st)
    case Object => ObjectState(env, layout, data, pos, v, st)
    case _ => Err(UnsupportedKind)
  }

  /** A UnityObjectRef index: null when negative, else the number. */
  function IndexCall(index: int): Call
  {
    if index < 0 then WriteNull else WriteNumber(index)
  }

  /** An array or list: an int32 length, then that many elements. */
  function SequenceState(env: S.Env, layout: Layout, data: seq<byte>, pos: nat, v: ValueSchema, st: WriterState): (r: Result<Parsed<WriterState>>)
    ensures Balanced(pos, st, r)
    decreases Remaining(data, pos), v, 0, 0
  {
    var len :- Int32At(data, pos);
    var open := Apply(layout, st, BeginArray);
    if Count(len.value) == 0 then Ok(Parsed(Apply(layout, open, EndArray), len.next))
    else if v.element.None? then Err(NullReference)
    else
      var items :- ElementStates(env, layout, data, len.next, v.element.value, Count(len.value), open);
      Ok(Parsed(Apply(layout, items.value, EndArray), items.next))
  }

  /** The first n elements of an array starting at `start`. */
  function ElementStates(env: S.Env, layout: Layout, data: seq<byte>, start: nat, element: ValueSchema, n: nat, st: WriterState): (r: Result<Parsed<WriterState>>)
    ensures Balanced(start, st, r)
    decreases Remaining(data, start), element, 2, n
  {
    if n == 0 then Ok(Parsed(st, start))
    else
      var prev :- ElementStates(env, layout, data, start, element, n - 1, st);
      ValueState(env, layout, data, prev.next, element, prev.value)
  }

  /** BeginObject, "$typeId" and "$typeName" of an identified object, and the
      name "data". */
  function TypeHeader(layout: Layout, st: WriterState, idText: string, typeName: string): (r: WriterState)
    ensures r.indent == st.indent + 1
  {
    var open := Apply(layout, st, BeginObject);
    var idKey := Apply(layout, open, PropertyName("$typeId"));
    var idValue := Apply(layout, idKey, WriteString(Some(idText)));
    var nameKey := Apply(layout, idValue, PropertyName("$typeName"));
    var typeValue := Apply(layout, nameKey, WriteString(Some(typeName)));
    Apply(layout, typeValue, PropertyName("data"))
  }

  /** BeginObject and the name "data" of an object that is not identified. */
  function DataHeader(layout: Layout, st: WriterState): (r: WriterState)
    ensures r.indent == st.indent + 1
  {
    Apply(layout, Apply(layout, st, BeginObject), PropertyName("data"))
  }

  /** A nested object, wrapped as { "$typeId", "$typeName", "data" } when its
      type is identified (a zero id is null) and as { "data" } otherwise. */
  function ObjectState(env: S.Env, layout: Layout, data: seq<byte>, pos: nat, v: ValueSchema, st: WriterState): (r: Result<Parsed<WriterState>>)
    ensures Balanced(pos, st, r)
    decreases Remaining(data, pos), v, 0, 0
  {
    if v.isIdentifiedType then
      var id :- S.TypeIdAt(data, pos);
      if id.value == Empty then Ok(Parsed(Apply(layout, st, WriteNull), id.next))
      else
        var s :- S.Resolve(env.types, id.value);
        var body :- BodyState(env, layout, data, id.next, Some(s), TypeHeader(layout, st, FormatN(id.value), s.fullName));
        Ok(Parsed(Apply(layout, body.value, EndObject), body.next))
    else
      var body :- BodyState(env, layout, data, pos, v.objectType, DataHeader(layout, st));
      Ok(Parsed(Apply(layout, body.value, EndObject), body.next))
  }

  /** ReadObjectBodyAsJson: an object holding the fields of `schema` in order. */
  function BodyState(env: S.Env, layout: Layout, data: seq<byte>, pos: nat, schema: Option<TypeSchema>, st: WriterState): (r: Result<Parsed<WriterState>>)
    ensures Balanced(pos, st, r)
    decreases Remaining(data, pos), schema, 0, 0
  {
    if schema.None? then Err(MissingSchema)
    else
      var s := schema.value;
      var fields :- FieldStates(env, layout, data, pos, s, |s.fields|, Apply(layout, st, BeginObject));
      Ok(Parsed(Apply(layout, fields.value, EndObject), fields.next))
  }

  /** The first k fields of `s`, each as its property name and its value. */
  function FieldStates(env: S.Env, layout: Layout, data: seq<byte>, start: nat, s: TypeSchema, k: nat, st: WriterState): (r: Result<Parsed<WriterState>>)
    requires k <= |s.fields|
    ensures Balanced(start, st, r)
    decreases Remaining(data, start), s, 0, k
  {
    if k == 0 then Ok(Parsed(st, start))
    else
      var prev :- FieldStates(env, layout, data, start, s, k - 1, st);
      var f := s.fields[k - 1];
      assert f in s.fields;
      ValueState(env, layout, data, prev.next, f.value, Apply(layout, prev.value, PropertyName(f.name)))
  }

  lemma FieldStatesStep(env: S.Env, layout: Layout, data: seq<byte>, start: nat, s: TypeSchema, i: nat, st: WriterState, prev: Parsed<WriterState>)
    requires i < |s.fields| && FieldStates(env, layout, data, start, s, i, st) == Ok(prev)
    ensures FieldStates(env, layout, data, start, s, i + 1, st)
      == ValueState(env, layout, data, prev.next, s.fields[i].value, Apply(layout, prev.value, PropertyName(s.fields[i].name)))
  {
  }

  /** What the root writes after its body: "name", "assetGuid" and the
      closing brace. */
  function RootTrailer(layout: Layout, st: WriterState, name: string, asset: string): (r: WriterState)
    ensures r.indent == st.indent - 1
  {
    var nameKey := Apply(layout, st, PropertyName("name"));
    var nameValue := Apply(layout, nameKey, WriteString(Some(name)));
    var assetKey := Apply(layout, nameValue, PropertyName("assetGuid"));
    var assetValue := Apply(layout, assetKey, WriteString(Some(asset)));
    Apply(layout, assetValue, EndObject)
  }

  /** ReadBlueprintAsJson of the nested decoder: a root type id (zero writes
      null and reads nothing more), then { "$typeId", "$typeName", "data",
      "name", "assetGuid" }, the name string being read before the asset's. */
  function RecordState(env: S.Env, layout: Layout, data: seq<byte>, pos: nat, st: WriterState): (r: Result<Parsed<WriterState>>)
    ensures Balanced(pos, st, r)
  {
    var id :- S.TypeIdAt(data, pos);
    if id.value == Empty then Ok(Parsed(Apply(layout, st, WriteNull), id.next))
    else
      var s :- S.Resolve(env.types, id.value);
      var body :- BodyState(env, layout, data, id.next, Some(s), TypeHeader(layout, st, FormatN(id.value), s.fullName));
      var name :- StringAt(env.utf8, data, body.next);
      var asset :- StringAt(env.utf8, data, name.next);
      Ok(Parsed(RootTrailer(layout, body.value, name.value, asset.value), asset.next))
  }

  lemma {:induction false} ElementsErrorPersists(env: S.Env, layout: Layout, data: seq<byte>, start: nat, element: ValueSchema, i: nat, n: nat, st: WriterState)
    requires i <= n && ElementStates(env, layout, data, start, element, i, st).Err?
    ensures ElementStates(env, layout, data, start, element, n, st) == ElementStates(env, layout, data, start, element, i, st)
    decreases n - i
  {
    if i < n {
      ElementsErrorPersists(env, layout, data, start, element, i + 1, n, st);
    }
  }

  lemma {:induction false} FieldsErrorPersists(env: S.Env, layout: Layout, data: seq<byte>, start: nat, s: TypeSchema, i: nat, k: nat, st: WriterState)
    requires i <= k <= |s.fields| && FieldStates(env, layout, data, start, s, i, st).Err?
    ensures FieldStates(env, layout, data, start, s, k, st) == FieldStates(env, layout, data, start, s, i, st)
    decreases k - i
  {
    if i < k {
      FieldsErrorPersists(env, layout, data, start, s, i + 1, k, st);
    }
  }

  /** The decoder agrees with the function `spec`: on success the reader is
      where the decode ends and the writer in the state it yields; on
      failure it reports the same exception. */
  predicate Wrote(r: Result<()>, spec: Result<Parsed<WriterState>>, pos: nat, now: WriterState)
  {
    match spec
    case Ok(p) => r.Ok? && pos == p.next && now == p.value
    case Err(e) => r == Err(e)
  }

  /** The reader and the writer are where the successful decode `spec` ends. */
  predicate At(spec: Result<Parsed<WriterState>>, pos: nat, now: WriterState)
  {
    spec.Ok? && pos == spec.value.next && now == spec.value.value
  }

  lemma PrefixChain(a: string, b: string, c: string, d: string)
    requires a <= b && b <= c && c <= d
    ensures a <= d
  {
  }

  /** BinaryToJsonBlueprintSerializer: the nested decoder over a shared
      reader, writing through a JsonWriter whose depth is not negative. */
  class LegacySerializer {
    const reader: ByteReader
    const env: S.Env

    constructor (reader: ByteReader, env: S.Env)
      ensures this.reader == reader && this.env == env
    {
      this.reader := reader;
      this.env := env;
    }

    method ReadBlueprintAsJson(json: JsonWriter) returns (r: Result<()>)
      requires json.indent >= 0
      modifies reader, json, json.tw
      ensures Wrote(r, RecordState(env, json.Format(), reader.data, old(reader.pos), old(json.State())), reader.pos, json.State())
      ensures old(json.tw.text) <= json.tw.text
    {
      var typeId :- ReadTypeId();
      if typeId == Empty {
        json.WriteNull();
        return Ok(());
      }
      var schema :- S.Resolve(env.types, typeId);
      WriteTypeHeader(json, FormatN(typeId), schema.fullName);
      var body := ReadObjectBodyAsJson(json, Some(schema));
      if body.Err? {
        return body;
      }
      var name :- reader.ReadString(env.utf8);
      var assetGuid :- reader.ReadString(env.utf8);
      WriteRootTrailer(json, name, assetGuid);
      r := Ok(());
    }

    /** "name", "assetGuid" and the closing brace of the root. */
    method WriteRootTrailer(json: JsonWriter, name: string, assetGuid: string)
      requires json.indent >= -2
      modifies json, json.tw
      ensures json.State() == RootTrailer(json.Format(), old(json.State()), name, assetGuid)
      ensures old(json.tw.text) <= json.tw.text
    {
      json.WritePropertyName("name");
      json.WriteString(Some(name));
      json.WritePropertyName("assetGuid");
      json.WriteString(Some(assetGuid));
      json.EndObject();
    }

    /** BeginObject, "$typeId", "$typeName" and the name "data". */
    method WriteTypeHeader(json: JsonWriter, idText: string, typeName: string)
      requires json.indent >= -1
      modifies json, json.tw
      ensures json.State() == TypeHeader(json.Format(), old(json.State()), idText, typeName)
      ensures old(json.tw.text) <= json.tw.text
    {
      json.BeginObject();
      json.WritePropertyName("$typeId");
      json.WriteString(Some(idText));
      json.WritePropertyName("$typeName");
      json.WriteString(Some(typeName));
      json.WritePropertyName("data");
    }

    method ReadObjectBodyAsJson(json: JsonWriter, schema: Option<TypeSchema>) returns (r: Result<()>)
      requires json.indent >= 0
      modifies reader, json, json.tw
      ensures Wrote(r, BodyState(env, json.Format(), reader.data, old(reader.pos), schema, old(json.State())), reader.pos, json.State())
      ensures old(json.tw.text) <= json.tw.text
      decreases Remaining(reader.data, reader.pos), schema, 0, 0
    {
      if schema.None? {
        return Err(MissingSchema);
      }
      ghost var t0 := json.tw.text;
      json.BeginObject();
      ghost var t1 := json.tw.text;
      r := ReadFields(json, schema.value);
      ghost var t2 := json.tw.text;
      if r.Ok? {
        json.EndObject();
      }
      PrefixChain(t0, t1, t2, json.tw.text);
    }

    /** The loop over the fields of a body, in schema order. */
    method ReadFields(json: JsonWriter, s: TypeSchema) returns (r: Result<()>)
      requires json.indent >= 0
      modifies reader, json, json.tw
      ensures Wrote(r, FieldStates(env, json.Format(), reader.data, old(reader.pos), s, |s.fields|, old(json.State())), reader.pos, json.State())
      ensures old(json.tw.text) <= json.tw.text
      decreases Remaining(reader.data, reader.pos), s, 0, 0
    {
      ghost var t0 := json.tw.text;
      ghost var start := reader.pos;
      ghost var header := json.State();
      var i := 0;
      while i < |s.fields|
        invariant 0 <= i <= |s.fields|
        invariant At(FieldStates(env, json.Format(), reader.data, start, s, i, header), reader.pos, json.State())
        invariant t0 <= json.tw.text
      {
        assert s.fields[i] in s.fields;
        ghost var t1 := json.tw.text;
        var value := ReadField(json, s, i, start, header);
        PrefixChain(t0, t1, t1, json.tw.text);
        if value.Err? {
          FieldsErrorPersists(env, json.Format(), reader.data, start, s, i + 1, |s.fields|, header);
          return value;
        }
        i := i + 1;
      }
      r := Ok(());
    }

    /** Field i of a body: its name, then its value, after the first i. */
    method ReadField(json: JsonWriter, s: TypeSchema, i: nat, ghost start: nat, ghost header: WriterState) returns (r: Result<()>)
      requires i < |s.fields| && json.indent >= 0
      requires At(FieldStates(env, json.Format(), reader.data, start, s, i, header), reader.pos, json.State())
      modifies reader, json, json.tw
      ensures Wrote(r, FieldStates(env, json.Format(), reader.data, start, s, i + 1, header), reader.pos, json.State())
      ensures old(json.tw.text) <= json.tw.text
      decreases Remaining(reader.data, reader.pos), s.fields[i].value, 2, 0
    {
      var f := s.fields[i];
      FieldStatesStep(env, json.Format(), reader.data, start, s, i, header, Parsed(json.State(), reader.pos));
      ghost var t0 := json.tw.text;
      json.WritePropertyName(f.name);
      ghost var t1 := json.tw.text;
      r := ReadValueAsJson(json, f.value);
      PrefixChain(t0, t1, t1, json.tw.text);
    }

    method ReadValueAsJson(json: JsonWriter, v: ValueSchema) returns (r: Result<()>)
      requires json.indent >= 0
      modifies reader, json, json.tw
      ensures Wrote(r, ValueState(env, json.Format(), reader.data, old(reader.pos), v, old(json.State())), reader.pos, json.State())
      ensures old(json.tw.text) <= json.tw.text
      decreases Remaining(reader.data, reader.pos), v, 1, 0
    {
      r := Ok(());
      match v.kind {
        case Int32 =>
          var x :- reader.ReadInt32();
          json.WriteNumber(x);
        case UInt32 =>
          var x :- reader.ReadUInt32();
          json.WriteNumber(x);
        case Int64 =>
          var x :- reader.ReadInt64();
          json.WriteNumber(x);
        case UInt64 =>
          var x :- reader.ReadUInt64();
          json.WriteNumber(x);
        case Single =>
          var x :- reader.ReadSingle();
          json.WriteRawSingle(x);
        case Double =>
          var x :- reader.ReadDouble();
          json.WriteRawDouble(x);
        case Boolean =>
          var x :- reader.ReadBoolean();
          json.WriteBool(x);
        case String =>
          var x :- reader.ReadString(env.utf8);
          json.WriteString(Some(x));
        case EnumInt32 =>
          var x :- reader.ReadInt32();
          json.WriteNumber(x);
        case UnityObjectRef =>
          var id :- reader.ReadInt32();
          if id < 0 {
            json.WriteNull();
          } else {
            json.WriteNumber(id);
          }
        case Array => r := ReadSequence(json, v);
        case List => r := ReadSequence(json, v);
        case Object => r := ReadObject(json, v);
        case _ => r := Err(UnsupportedKind);
      }
    }

    method ReadSequence(json: JsonWriter, v: ValueSchema) returns (r: Result<()>)
      requires json.indent >= 0
      modifies reader, json, json.tw
      ensures Wrote(r, SequenceState(env, json.Format(), reader.data, old(reader.pos), v, old(json.State())), reader.pos, json.State())
      ensures old(json.tw.text) <= json.tw.text
      decreases Remaining(reader.data, reader.pos), v, 0, 0
    {
      var len :- reader.ReadInt32();
      json.BeginArray();
      if len > 0 && v.element.None? {
        return Err(NullReference);
      }
      ghost var start := reader.pos;
      ghost var inside := json.State();
      var i := 0;
      while i < len
        invariant 0 <= i <= Count(len)
        invariant v.element.Some? ==> At(ElementStates(env, json.Format(), reader.data, start, v.element.value, i, inside), reader.pos, json.State())
        invariant v.element.None? ==> i == 0 && reader.pos == start && json.State() == inside
        invariant old(json.tw.text) <= json.tw.text
      {
        var item := ReadValueAsJson(json, v.element.value);
        if item.Err? {
          ElementsErrorPersists(env, json.Format(), reader.data, start, v.element.value, i + 1, Count(len), inside);
          return item;
        }
        i := i + 1;
      }
      assert i == Count(len);
      json.EndArray();
      r := Ok(());
    }

    method ReadObject(json: JsonWriter, v: ValueSchema) returns (r: Result<()>)
      requires json.indent >= 0
      modifies reader, json, json.tw
      ensures Wrote(r, ObjectState(env, json.Format(), reader.data, old(reader.pos), v, old(json.State())), reader.pos, json.State())
      ensures old(json.tw.text) <= json.tw.text
      decreases Remaining(reader.data, reader.pos), v, 0, 0
    {
      var actual: Option<TypeSchema>;
      if v.isIdentifiedType {
        var typeId :- ReadTypeId();
        if typeId == Empty {
          json.WriteNull();
          return Ok(());
        }
        var s :- S.Resolve(env.types, typeId);
        actual := Some(s);
        WriteTypeHeader(json, FormatN(typeId), s.fullName);
      } else {
        actual := v.objectType;
        json.BeginObject();
        json.WritePropertyName("data");
      }
      r := ReadObjectBodyAsJson(json, actual);
      if r.Err? {
        return r;
      }
      json.EndObject();
    }

    method ReadTypeId() returns (r: Result<Guid>)
      modifies reader
      ensures Follows(r, S.TypeIdAt(reader.data, old(reader.pos)), reader.pos)
    {
      var bytes := reader.ReadBytes(16);
      if |bytes| != 16 {
        return Err(EndOfStream);
      }
      r := Ok(bytes);
    }
  }

  /** The reader is where `spec` ends and `toc` holds the entries it read. */
  predicate TocAtEntries(spec: Result<Parsed<seq<TocEntry>>>, pos: nat, toc: Toc)
  {
    spec.Ok? && pos == spec.value.next && toc == TocOf(spec.value.value)
  }

  /** ReadToc: seeks to the start of the pack and reads the table, reusing
      one 16-byte buffer for the ids. */
  method ReadToc(pack: ByteReader) returns (r: Result<Toc>)
    modifies pack
    ensures r == TocAt(pack.data)
  {
    pack.Seek(0);
    var toc := Toc([], map[]);
    var guidBytes := new byte[16];
    var count :- pack.ReadInt32();
    var i := 0;
    while i < count
      invariant 0 <= i <= Count(count)
      invariant TocAtEntries(TocEntriesAt(pack.data, 4, i), pack.pos, toc)
    {
      ghost var before := TocEntriesAt(pack.data, 4, i).value;
      var got := pack.Read(guidBytes, 16);
      var guid := FormatN(guidBytes[..]);
      var offset := pack.ReadUInt32();
      if offset.Err? {
        assert TocEntryAt(pack.data, before.next).Err?;
        TocErrorPersists(pack.data, 4, i + 1, Count(count));
        return Err(offset.error);
      }
      assert guidBytes[..] == BytesUpTo(pack.data, before.next, 16);
      toc := Insert(toc, guid, offset.value);
      i := i + 1;
    }
    assert i == Count(count);
    r := Ok(toc);
  }

  lemma {:induction false} TocErrorPersists(data: seq<byte>, start: nat, i: nat, n: nat)
    requires i <= n && TocEntriesAt(data, start, i).Err?
    ensures TocEntriesAt(data, start, n) == TocEntriesAt(data, start, i)
    decreases n - i
  {
    if i < n {
      TocErrorPersists(data, start, i + 1, n);
    }
  }

  /** The dump's progress: the output text so far and whether no member has
      been written yet. */
  datatype DumpState = DumpState(text: string, first: bool)

  /** The opening lines of the output file. */
  function Header(nl: string): string
  {
    "{" + nl + "  \"blueprints\": {" + nl
  }

  /** The closing lines of the output file. */
  function Footer(nl: string): string
  {
    nl + "  }" + nl + "}" + nl
  }

  /** What is written before a member: a "," line unless it is the first,
      then the quoted id and ": ". */
  function MemberPrefix(nl: string, first: bool, key: string): string
  {
    (if first then "" else "," + nl) + "    \"" + key + "\": "
  }

  /** One pass of the dump loop: an entry at offset 0 is skipped; any other
      is decoded from its offset by a fresh JsonWriter on the same output. */
  function DumpEntry(env: S.Env, layout: Layout, data: seq<byte>, key: string, offset: nat, st: DumpState): Result<DumpState>
  {
    if offset == 0 then Ok(st)
    else
      var record :- RecordState(env, layout, data, offset, WriterState(st.text + MemberPrefix(layout.newLine, st.first, key), 0, false));
      Ok(DumpState(record.value.text, false))
  }

  /** The dump after the first i keys of the table. */
  function DumpEntries(env: S.Env, layout: Layout, data: seq<byte>, toc: Toc, i: nat, st: DumpState): Result<DumpState>
    requires TocValid(toc) && i <= |toc.keys|
  {
    if i == 0 then Ok(st)
    else
      var prev :- DumpEntries(env, layout, data, toc, i - 1, st);
      var key := toc.keys[i - 1];
      DumpEntry(env, layout, data, key, toc.offsets[key], prev)
  }

  /** DumpBlueprintPackToJson after the pack has been opened: the header, a
      member per entry of the table, and the footer. */
  function DumpText(env: S.Env, layout: Layout, data: seq<byte>, text: string): Result<string>
  {
    var toc :- TocAt(data);
    var st :- DumpEntries(env, layout, data, toc, |toc.keys|, DumpState(text + Header(layout.newLine), true));
    Ok(st.text + Footer(layout.newLine))
  }

  lemma {:induction false} DumpErrorPersists(env: S.Env, layout: Layout, data: seq<byte>, toc: Toc, i: nat, n: nat, st: DumpState)
    requires TocValid(toc) && i <= n <= |toc.keys| && DumpEntries(env, layout, data, toc, i, st).Err?
    ensures DumpEntries(env, layout, data, toc, n, st) == DumpEntries(env, layout, data, toc, i, st)
    decreases n - i
  {
    if i < n {
      DumpErrorPersists(env, layout, data, toc, i + 1, n, st);
    }
  }

  /** The closing lines, after the last member. */
  method WriteFooter(output: TextOutput)
    modifies output
    ensures output.text == old(output.text) + Footer(output.newLine)
  {
    output.WriteLine("");
    output.WriteLine("  }");
    output.WriteLine("}");
  }

  /** One member of the dump: the separator and the quoted id, then the
      record at `offset`, decoded by a fresh JsonWriter on the output. */
  method DumpMember(pack: ByteReader, output: TextOutput, env: S.Env, formatSingle: nat -> string, formatDouble: nat -> string,
                    key: string, offset: nat, first: bool)
    returns (r: Result<()>)
    requires offset != 0
    modifies pack, output
    ensures var spec := DumpEntry(env, Layout(output.newLine, formatSingle, formatDouble), pack.data, key, offset, DumpState(old(output.text), first));
      && (r.Ok? <==> spec.Ok?)
      && (spec.Ok? ==> DumpState(output.text, false) == spec.value)
      && (spec.Err? ==> r == Err(spec.error))
    ensures old(output.text) + MemberPrefix(output.newLine, first, key) <= output.text
  {
    ghost var before := output.text;
    pack.Seek(offset);
    var json := new JsonWriter(output, formatSingle, formatDouble);
    if !first {
      output.WriteLine(",");
    }
    output.Write("    \"" + key + "\": ");
    assert output.text == before + MemberPrefix(output.newLine, first, key);
    ghost var prefixed := output.text;
    var serializer := new LegacySerializer(pack, env);
    r := serializer.ReadBlueprintAsJson(json);
    assert prefixed <= output.text;
  }

  /** DumpBlueprintPackToJson over an opened pack and output file: reads
      the table, then writes the header, one member per entry whose offset
      is not zero, and the footer. */
  method DumpBlueprintPackToJson(pack: ByteReader, output: TextOutput, env: S.Env, formatSingle: nat -> string, formatDouble: nat -> string)
    returns (r: Result<()>)
    modifies pack, output
    ensures var spec := DumpText(env, Layout(output.newLine, formatSingle, formatDouble), pack.data, old(output.text));
      && (r.Ok? <==> spec.Ok?)
      && (spec.Ok? ==> output.text == spec.value)
      && (spec.Err? ==> r == Err(spec.error))
    ensures TocAt(pack.data).Err? ==> output.text == old(output.text)
    ensures TocAt(pack.data).Ok? ==> old(output.text) + Header(output.newLine) <= output.text
  {
    var toc :- ReadToc(pack);
    output.WriteLine("{");
    output.WriteLine("  \"blueprints\": {");
    assert output.text == old(output.text) + Header(output.newLine);
    ghost var headed := output.text;
    r := DumpMembers(pack, output, env, formatSingle, formatDouble, toc);
    ghost var members := output.text;
    if r.Ok? {
      WriteFooter(output);
    }
    PrefixChain(headed, headed, members, output.text);
  }

  /** The loop over the table's keys, in insertion order. */
  method DumpMembers(pack: ByteReader, output: TextOutput, env: S.Env, formatSingle: nat -> string, formatDouble: nat -> string, toc: Toc)
    returns (r: Result<()>)
    requires TocValid(toc)
    modifies pack, output
    ensures var spec := DumpEntries(env, Layout(output.newLine, formatSingle, formatDouble), pack.data, toc, |toc.keys|, DumpState(old(output.text), true));
      && (r.Ok? <==> spec.Ok?)
      && (spec.Ok? ==> output.text == spec.value.text)
      && (spec.Err? ==> r == Err(spec.error))
    ensures old(output.text) <= output.text
  {
    ghost var layout := Layout(output.newLine, formatSingle, formatDouble);
    ghost var start := DumpState(output.text, true);
    var first := true;
    var i := 0;
    while i < |toc.keys|
      invariant 0 <= i <= |toc.keys|
      invariant DumpEntries(env, layout, pack.data, toc, i, start) == Ok(DumpState(output.text, first))
      invariant start.text <= output.text
    {
      ghost var before := output.text;
      var step := DumpKey(pack, output, env, formatSingle, formatDouble, toc, i, first, start);
      PrefixChain(start.text, before, before, output.text);
      if step.Err? {
        DumpErrorPersists(env, layout, pack.data, toc, i + 1, |toc.keys|, start);
        return Err(step.error);
      }
      first := step.value;
      i := i + 1;
    }
    r := Ok(());
  }

  /** One pass of the loop: key i is skipped when its offset is 0 and
      dumped otherwise; the result is the new `first` flag. */
  method DumpKey(pack: ByteReader, output: TextOutput, env: S.Env, formatSingle: nat -> string, formatDouble: nat -> string,
                 toc: Toc, i: nat, first: bool, ghost start: DumpState)
    returns (r: Result<bool>)
    requires TocValid(toc) && i < |toc.keys|
    requires DumpEntries(env, Layout(output.newLine, formatSingle, formatDouble), pack.data, toc, i, start) == Ok(DumpState(output.text, first))
    modifies pack, output
    ensures var spec := DumpEntries(env, Layout(output.newLine, formatSingle, formatDouble), pack.data, toc, i + 1, start);
      && (r.Ok? <==> spec.Ok?)
      && (spec.Ok? ==> spec.value == DumpState(output.text, r.value))
      && (spec.Err? ==> r == Err(spec.error))
    ensures old(output.text) <= output.text
  {
    var key := toc.keys[i];
    var offset := toc.offsets[key];
    if offset == 0 {
      return Ok(first);
    }
    ghost var before := output.text;
    var member := DumpMember(pack, output, env, formatSingle, formatDouble, key, offset, first);
    PrefixChain(before, before, before + MemberPrefix(output.newLine, first, key), output.text);
    if member.Err? {
      return Err(member.error);
    }
    r := Ok(false);
  }
}
