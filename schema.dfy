/** The schema a decoder walks: a value kind per field, and for composite
    kinds the element schema or the object type. */
module Schema {
  import opened Base
  import opened Guids

  /** The encodings a field value can have in the archive. */
  datatype ValueKind =
    | Int32 | UInt32 | Int64 | UInt64 | Single | Double | Boolean | String | EnumInt32
    | BlueprintRef
    | UnityObjectRef
    | Color | Color32 | Vector2 | Vector3 | Vector4 | Vector2Int | Gradient | AnimationCurve | ColorBlock
    | Array | List | Object

  /** One public static field of an enum type, with its constant value. */
  datatype EnumConstant = EnumConstant(name: string, value: int)

  /** What the provider's reflection sees of an enum type: its constants in
      declaration order, whether it carries [Flags], and the full name of
      its underlying integral type. */
  datatype EnumDef = EnumDef(constants: seq<EnumConstant>, isFlags: bool, underlying: string)

  /** A resolved type: its short and full name, the identifier it is
      registered under, its serialized fields in order, and, for an enum,
      its reflected constants. */
  datatype TypeSchema = TypeSchema(
    name: string,
    fullName: string,
    typeId: Guid,
    fields: seq<Field>,
    enumDef: Option<EnumDef>)

  datatype Field = Field(name: string, value: ValueSchema)

  /** A field's schema. `element` is set for arrays and lists, `objectType`
      for enums and objects; the two flags only matter for objects. */
  datatype ValueSchema = ValueSchema(
    kind: ValueKind,
    element: Option<ValueSchema>,
    objectType: Option<TypeSchema>,
    isIdentifiedType: bool,
    forceNeedsType: bool)

  predicate HasElement(k: ValueKind)
  {
    k == Array || k == List
  }

  predicate HasObjectType(k: ValueKind)
  {
    k == EnumInt32 || k == Object
  }

  /** The payload a factory attaches matches the kind it builds. */
  predicate WellFormed(v: ValueSchema)
  {
    && (v.element.Some? <==> HasElement(v.kind))
    && (v.objectType.Some? <==> HasObjectType(v.kind))
    && (v.isIdentifiedType || v.forceNeedsType ==> v.kind == Object)
  }

  /** Every schema reachable from `v` satisfies WellFormed. */
  predicate DeepWellFormed(v: ValueSchema)
  {
    && WellFormed(v)
    && (v.element.Some? ==> DeepWellFormed(v.element.value))
    && (v.objectType.Some? ==> TypeWellFormed(v.objectType.value))
  }

  predicate TypeWellFormed(t: TypeSchema)
  {
    forall f | f in t.fields :: DeepWellFormed(f.value)
  }

  /** The factories for the kinds that carry no payload (`ValueSchema.Int32()` … `ColorBlock()`). */
  function OfKind(k: ValueKind): (v: ValueSchema)
    requires !HasElement(k) && !HasObjectType(k)
    ensures WellFormed(v) && v.kind == k
    ensures v.element.None? && v.objectType.None? && !v.isIdentifiedType && !v.forceNeedsType
  {
    ValueSchema(k, None, None, false, false)
  }

  /** `ValueSchema.EnumInt32(enumType)`. */
  function EnumOf(enumType: TypeSchema): (v: ValueSchema)
    ensures WellFormed(v) && v.kind == EnumInt32 && v.objectType == Some(enumType)
  {
    ValueSchema(EnumInt32, None, Some(enumType), false, false)
  }

  /** `ValueSchema.Array(element)`. */
  function ArrayOf(element: ValueSchema): (v: ValueSchema)
    ensures WellFormed(v) && v.kind == Array && v.element == Some(element)
  {
    ValueSchema(Array, Some(element), None, false, false)
  }

  /** `ValueSchema.List(element)`. */
  function ListOf(element: ValueSchema): (v: ValueSchema)
    ensures WellFormed(v) && v.kind == List && v.element == Some(element)
  {
    ValueSchema(List, Some(element), None, false, false)
  }

  /** `ValueSchema.Object(objectType, isIdentifiedType, forceNeedsType = false)`. */
  function ObjectOf(objectType: TypeSchema, isIdentifiedType: bool, forceNeedsType: bool := false): (v: ValueSchema)
    ensures WellFormed(v) && v.kind == Object && v.objectType == Some(objectType)
    ensures v.isIdentifiedType == isIdentifiedType && v.forceNeedsType == forceNeedsType
  {
    ValueSchema(Object, None, Some(objectType), isIdentifiedType, forceNeedsType)
  }
}
