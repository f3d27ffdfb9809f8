/** How the schema providers classify a reflected field type into a value
    schema (BuildValueSchema), in the current provider and in the older one,
    and the IsList test both use. A reflected `Type` is described by the few
    facts the classification reads. */
module TypeModel {
  import opened Base
  import opened Guids
  import opened Schema

  /** What the classification reads of a reflected type. `genericArgs` is
      GetGenericArguments(), so a type is generic exactly when it has some;
      `baseTypes` are its proper base classes (IsSubclassOf). */
  datatype TypeDesc = TypeDesc(
    name: string,
    fullName: Option<string>,
    isEnum: bool,
    isArray: bool,
    element: Option<TypeDesc>,
    genericArgs: seq<TypeDesc>,
    definitionFullName: Option<string>,
    baseTypes: seq<TypeDesc>)

  /** The provider's collaborators: the types it loaded, by full name; the
      base types UnityObject and BlueprintReferenceBase; the game-specific
      IsIdentifiedType; and BuildSchema, which reflects over a type's
      serialized fields. */
  datatype Provider = Provider(
    typeByFullName: map<string, TypeDesc>,
    unityObjectType: TypeDesc,
    blueprintReferenceBaseType: TypeDesc,
    isIdentified: TypeDesc -> bool,
    buildSchema: (TypeDesc, Guid) -> TypeSchema)

  /** The system types mapped to scalar kinds, in the order they are tried. */
  const PrimitiveNames: seq<(string, ValueKind)> := [
    ("System.Int32", Int32), ("System.UInt32", UInt32), ("System.Int64", Int64), ("System.UInt64", UInt64),
    ("System.Single", Single), ("System.Double", Double), ("System.Boolean", Boolean), ("System.String", String)]

  /** The Unity structs with a fixed binary layout. */
  const UnityStructNames: seq<(string, ValueKind)> := [
    ("UnityEngine.Color", Color), ("UnityEngine.Color32", Color32), ("UnityEngine.Vector2", Vector2),
    ("UnityEngine.Vector3", Vector3), ("UnityEngine.Vector4", Vector4), ("UnityEngine.Vector2Int", Vector2Int),
    ("UnityEngine.Gradient", Gradient), ("UnityEngine.AnimationCurve", AnimationCurve),
    ("UnityEngine.UI.ColorBlock", ColorBlock)]

  const UnityObjectName := "UnityEngine.Object"

  /** A kind that carries no element and no object type. */
  predicate Plain(k: ValueKind)
  {
    !HasElement(k) && !HasObjectType(k)
  }

  /** What the current provider's constructor establishes: every type it
      looks up by full name was loaded (RequireType throws otherwise), and
      the UnityObject base is the loaded UnityEngine.Object. */
  predicate Loaded(p: Provider)
  {
    && (forall i | 0 <= i < |PrimitiveNames| :: PrimitiveNames[i].0 in p.typeByFullName)
    && (forall i | 0 <= i < |UnityStructNames| :: UnityStructNames[i].0 in p.typeByFullName)
    && UnityObjectName in p.typeByFullName
    && p.unityObjectType == p.typeByFullName[UnityObjectName]
  }

  /** The constructor files each loaded type under its own full name. */
  predicate FiledByName(p: Provider)
  {
    forall n | n in p.typeByFullName :: p.typeByFullName[n].fullName == Some(n)
  }

  /** The kind of the first row named `fn`: the older provider's string tests. */
  function NamedKind(table: seq<(string, ValueKind)>, fn: string): (r: Option<ValueKind>)
    requires PlainRows(table)
    ensures r.Some? ==> Plain(r.value)
    ensures r.Some? <==> exists i | 0 <= i < |table| :: table[i].0 == fn
    ensures r.Some? ==> exists i | 0 <= i < |table| :: table[i] == (fn, r.value)
  {
    if table == [] then None
    else if table[0].0 == fn then Some(table[0].1)
    else
      var r := NamedKind(table[1..], fn);
      assert r.Some? ==> exists i | 0 <= i < |table[1..]| :: table[1..][i] == (fn, r.value);
      r
  }

  /** The kind of the first row whose loaded type is `t` itself: the current
      provider's `fieldType == m_Int32Type` tests. */
  function IdenticalKind(p: Provider, table: seq<(string, ValueKind)>, t: TypeDesc): (r: Option<ValueKind>)
    requires PlainRows(table)
    requires forall i | 0 <= i < |table| :: table[i].0 in p.typeByFullName
    ensures r.Some? ==> Plain(r.value)
    ensures r.Some? <==> exists i | 0 <= i < |table| :: p.typeByFullName[table[i].0] == t
    ensures r.Some? ==> exists i | 0 <= i < |table| :: p.typeByFullName[table[i].0] == t && table[i].1 == r.value
  {
    if table == [] then None
    else if p.typeByFullName[table[0].0] == t then Some(table[0].1)
    else
      var r := IdenticalKind(p, table[1..], t);
      assert r.Some? ==> exists i | 0 <= i < |table[1..]| :: p.typeByFullName[table[1..][i].0] == t && table[1..][i].1 == r.value;
      r
  }

  predicate PlainRows(table: seq<(string, ValueKind)>)
  {
    forall i | 0 <= i < |table| :: Plain(table[i].1)
  }

  lemma PlainTables()
    ensures PlainRows(PrimitiveNames) && PlainRows(UnityStructNames)
  {
  }

  /** IsList: a generic type whose definition is List`1. */
  predicate IsList(t: TypeDesc)
  {
    |t.genericArgs| > 0 && t.definitionFullName == Some("System.Collections.Generic.List`1")
  }

  predicate IsOrSubclassOf(t: TypeDesc, base: TypeDesc)
  {
    t == base || base in t.baseTypes
  }

  /** The schema an identified object type gets instead of a built one: its
      names, no fields and the empty id. */
  function Placeholder(t: TypeDesc): TypeSchema
  {
    TypeSchema(t.name, t.fullName.GetOr(t.name), Empty, [], None)
  }

  /** The schema of a class or struct with no special encoding. */
  function ObjectSchema(p: Provider, t: TypeDesc, forceNeedsType: bool): (v: ValueSchema)
    ensures WellFormed(v) && ObjectsForced(v, forceNeedsType)
    ensures v.kind == Object && (v.isIdentifiedType <==> p.isIdentified(t))
    ensures v.isIdentifiedType ==> v.objectType == Some(Placeholder(t)) && v.objectType.value.fields == []
  {
    var identified := p.isIdentified(t);
    ObjectOf(if identified then Placeholder(t) else p.buildSchema(t, Empty), identified, forceNeedsType)
  }

  /** ForceNeedsType is `force` on every object schema along the element
      chain and false everywhere else. */
  predicate ObjectsForced(v: ValueSchema, force: bool)
  {
    && v.forceNeedsType == (v.kind == Object && force)
    && (v.element.Some? ==> ObjectsForced(v.element.value, force))
  }

  /** BuildValueSchema of the current provider. `forceNeedsType` is handed
      to the element of an array or list and to an object. A missing array
      element type throws NotSupportedException. */
  function BuildValueSchema(p: Provider, t: TypeDesc, forceNeedsType: bool): (r: Result<ValueSchema>)
    requires Loaded(p)
    ensures r.Ok? ==> WellFormed(r.value) && ObjectsForced(r.value, forceNeedsType)
    ensures r.Err? ==> r.error == UnsupportedKind
    decreases t, 1
  {
    PlainTables();
    match IdenticalKind(p, PrimitiveNames, t)
    case Some(k) => Ok(OfKind(k))
    case None =>
      if t.isEnum then Ok(EnumOf(p.buildSchema(t, Empty)))
      else
        match IdenticalKind(p, UnityStructNames, t)
        case Some(k) => Ok(OfKind(k))
        case None => BuildComposite(p, t, forceNeedsType)
  }

  /** BuildValueSchema of the older provider: the same order, but
      primitive and Unity struct types are recognised by `FullName ?? Name`,
      and no ForceNeedsType is ever set. */
  function BuildValueSchemaLegacy(p: Provider, t: TypeDesc): (r: Result<ValueSchema>)
    ensures r.Ok? ==> WellFormed(r.value) && ObjectsForced(r.value, false)
    ensures r.Err? ==> r.error == UnsupportedKind
    decreases t, 1
  {
    PlainTables();
    var fn := t.fullName.GetOr(t.name);
    match NamedKind(PrimitiveNames, fn)
    case Some(k) => Ok(OfKind(k))
    case None =>
      if t.isEnum then Ok(EnumOf(p.buildSchema(t, Empty)))
      else
        match NamedKind(UnityStructNames, fn)
        case Some(k) => Ok(OfKind(k))
        case None => BuildCompositeLegacy(p, t)
  }

  /** The rules after the Unity structs, which the two providers share:
      array, list, UnityObject, BlueprintReferenceBase, and otherwise an
      object. */
  function BuildComposite(p: Provider, t: TypeDesc, forceNeedsType: bool): (r: Result<ValueSchema>)
    requires Loaded(p)
    ensures r.Ok? ==> WellFormed(r.value) && ObjectsForced(r.value, forceNeedsType)
    ensures r.Err? ==> r.error == UnsupportedKind
    decreases t, 0
  {
    if t.isArray then
      match t.element
      case None => Err(UnsupportedKind)
      case Some(e) =>
        var v :- BuildValueSchema(p, e, forceNeedsType);
        Ok(ArrayOf(v))
    else if IsList(t) then
      var v :- BuildValueSchema(p, t.genericArgs[0], forceNeedsType);
      Ok(ListOf(v))
    else Ok(Reference(p, t, forceNeedsType))
  }

  function BuildCompositeLegacy(p: Provider, t: TypeDesc): (r: Result<ValueSchema>)
    ensures r.Ok? ==> WellFormed(r.value) && ObjectsForced(r.value, false)
    ensures r.Err? ==> r.error == UnsupportedKind
    decreases t, 0
  {
    if t.isArray then
      match t.element
      case None => Err(UnsupportedKind)
      case Some(e) =>
        var v :- BuildValueSchemaLegacy(p, e);
        Ok(ArrayOf(v))
    else if IsList(t) then
      var v :- BuildValueSchemaLegacy(p, t.genericArgs[0]);
      Ok(ListOf(v))
    else Ok(Reference(p, t, false))
  }

  /** A type that is neither an array nor a list: a reference to a Unity
      object or to a blueprint, or else an object. */
  function Reference(p: Provider, t: TypeDesc, forceNeedsType: bool): (v: ValueSchema)
    ensures WellFormed(v) && ObjectsForced(v, forceNeedsType)
  {
    if IsOrSubclassOf(t, p.unityObjectType) then OfKind(UnityObjectRef)
    else if IsOrSubclassOf(t, p.blueprintReferenceBaseType) then OfKind(BlueprintRef)
    else ObjectSchema(p, t, forceNeedsType)
  }

  /** The classification rules, and the order in which they are tried. */
  datatype Rule =
    | PrimitiveRule | EnumRule | StructRule | ArrayRule | ListRule | UnityObjectRule | BlueprintRefRule | ObjectRule

  function Priority(rule: Rule): nat
  {
    match rule
    case PrimitiveRule => 0
    case EnumRule => 1
    case StructRule => 2
    case ArrayRule => 3
    case ListRule => 4
    case UnityObjectRule => 5
    case BlueprintRefRule => 6
    case ObjectRule => 7
  }

  datatype Version = Current | Legacy

  /** Whether a rule's test holds of `t`, independently of the other rules. */
  predicate Applies(version: Version, p: Provider, t: TypeDesc, rule: Rule)
    requires version == Current ==> Loaded(p)
  {
    var fn := t.fullName.GetOr(t.name);
    match rule
    case PrimitiveRule =>
      if version == Current then exists i | 0 <= i < |PrimitiveNames| :: p.typeByFullName[PrimitiveNames[i].0] == t
      else exists i | 0 <= i < |PrimitiveNames| :: PrimitiveNames[i].0 == fn
    case EnumRule => t.isEnum
    case StructRule =>
      if version == Current then exists i | 0 <= i < |UnityStructNames| :: p.typeByFullName[UnityStructNames[i].0] == t
      else exists i | 0 <= i < |UnityStructNames| :: UnityStructNames[i].0 == fn
    case ArrayRule => t.isArray
    case ListRule => IsList(t)
    case UnityObjectRule => IsOrSubclassOf(t, p.unityObjectType)
    case BlueprintRefRule => IsOrSubclassOf(t, p.blueprintReferenceBaseType)
    case ObjectRule => true
  }

  /** `rule` applies and no rule tried before it does. */
  predicate FirstApplicable(version: Version, p: Provider, t: TypeDesc, rule: Rule)
    requires version == Current ==> Loaded(p)
  {
    Applies(version, p, t, rule) && forall e: Rule :: Priority(e) < Priority(rule) ==> !Applies(version, p, t, e)
  }

  /** The rule that produces a schema of kind `k`. */
  function RuleOf(k: ValueKind): Rule
  {
    match k
    case Int32 | UInt32 | Int64 | UInt64 | Single | Double | Boolean | String => PrimitiveRule
    case EnumInt32 => EnumRule
    case Color | Color32 | Vector2 | Vector3 | Vector4 | Vector2Int | Gradient | AnimationCurve | ColorBlock => StructRule
    case Array => ArrayRule
    case List => ListRule
    case UnityObjectRef => UnityObjectRule
    case BlueprintRef => BlueprintRefRule
    case Object => ObjectRule
  }

  /** The rule tried first among those that apply. */
  function Chosen(version: Version, p: Provider, t: TypeDesc): Rule
    requires version == Current ==> Loaded(p)
  {
    if Applies(version, p, t, PrimitiveRule) then PrimitiveRule
    else if Applies(version, p, t, EnumRule) then EnumRule
    else if Applies(version, p, t, StructRule) then StructRule
    else if Applies(version, p, t, ArrayRule) then ArrayRule
    else if Applies(version, p, t, ListRule) then ListRule
    else if Applies(version, p, t, UnityObjectRule) then UnityObjectRule
    else if Applies(version, p, t, BlueprintRefRule) then BlueprintRefRule
    else ObjectRule
  }

  /** Chosen is the first applicable rule, and the only one. */
  lemma ChosenIsFirst(version: Version, p: Provider, t: TypeDesc, rule: Rule)
    requires version == Current ==> Loaded(p)
    ensures FirstApplicable(version, p, t, rule) <==> rule == Chosen(version, p, t)
  {
    var c := Chosen(version, p, t);
    forall e: Rule | Priority(e) < Priority(c)
      ensures !Applies(version, p, t, e)
    {
    }
    assert Applies(version, p, t, c);
    assert rule != c ==> Priority(rule) != Priority(c);
  }

  /** Past the primitive, enum and struct tests, both providers choose in
      the same way. */
  lemma ChosenComposite(version: Version, p: Provider, t: TypeDesc)
    requires version == Current ==> Loaded(p)
    requires !Applies(version, p, t, PrimitiveRule) && !t.isEnum && !Applies(version, p, t, StructRule)
    ensures Chosen(version, p, t) ==
      if t.isArray then ArrayRule
      else if IsList(t) then ListRule
      else if IsOrSubclassOf(t, p.unityObjectType) then UnityObjectRule
      else if IsOrSubclassOf(t, p.blueprintReferenceBaseType) then BlueprintRefRule
      else ObjectRule
  {
  }

  lemma TableRules()
    ensures forall i | 0 <= i < |PrimitiveNames| :: RuleOf(PrimitiveNames[i].1) == PrimitiveRule
    ensures forall i | 0 <= i < |UnityStructNames| :: RuleOf(UnityStructNames[i].1) == StructRule
  {
  }

  /** The current provider classifies by the first rule, in priority order,
      whose test holds of the type; it throws only for an array without an
      element type, or when building an array's or list's element throws. */
  lemma Classification(p: Provider, t: TypeDesc, force: bool)
    requires Loaded(p)
    ensures var r := BuildValueSchema(p, t, force);
      && (r.Ok? ==> FirstApplicable(Current, p, t, RuleOf(r.value.kind)))
      && (r.Err? ==>
            || (FirstApplicable(Current, p, t, ArrayRule) && (t.element.None? || BuildValueSchema(p, t.element.value, force).Err?))
            || (FirstApplicable(Current, p, t, ListRule) && BuildValueSchema(p, t.genericArgs[0], force).Err?))
  {
    var r := BuildValueSchema(p, t, force);
    var rule := if r.Ok? then RuleOf(r.value.kind) else if t.isArray then ArrayRule else ListRule;
    ChooseCurrent(p, t, force);
    ChosenIsFirst(Current, p, t, rule);
  }

  lemma ChooseCurrent(p: Provider, t: TypeDesc, force: bool)
    requires Loaded(p)
    ensures var r := BuildValueSchema(p, t, force);
      && (r.Ok? ==> RuleOf(r.value.kind) == Chosen(Current, p, t))
      && (r.Err? ==>
            || (Chosen(Current, p, t) == ArrayRule && t.isArray && (t.element.None? || BuildValueSchema(p, t.element.value, force).Err?))
            || (Chosen(Current, p, t) == ListRule && !t.isArray && BuildValueSchema(p, t.genericArgs[0], force).Err?))
  {
    PlainTables();
    if IdenticalKind(p, PrimitiveNames, t).Some? || t.isEnum || IdenticalKind(p, UnityStructNames, t).Some? {
      LeadingRulesCurrent(p, t, force);
    } else {
      TrailingRulesCurrent(p, t, force);
    }
  }

  /** A type past the primitive, enum and struct rules is classified by the
      composite rules. */
  lemma TrailingRulesCurrent(p: Provider, t: TypeDesc, force: bool)
    requires Loaded(p)
    requires PlainRows(PrimitiveNames) && PlainRows(UnityStructNames)
    requires IdenticalKind(p, PrimitiveNames, t).None? && !t.isEnum && IdenticalKind(p, UnityStructNames, t).None?
    ensures var r := BuildValueSchema(p, t, force);
      && (r.Ok? ==> RuleOf(r.value.kind) == Chosen(Current, p, t))
      && (r.Err? ==>
            || (Chosen(Current, p, t) == ArrayRule && t.isArray && (t.element.None? || BuildValueSchema(p, t.element.value, force).Err?))
            || (Chosen(Current, p, t) == ListRule && !t.isArray && BuildValueSchema(p, t.genericArgs[0], force).Err?))
  {
    var r := BuildComposite(p, t, force);
    NoLeadingRule(p, t);
    FallsToComposite(p, t, force);
    ChosenComposite(Current, p, t);
    CompositeRule(p, t, force, r);
  }

  lemma NoLeadingRule(p: Provider, t: TypeDesc)
    requires Loaded(p)
    requires PlainRows(PrimitiveNames) && PlainRows(UnityStructNames)
    requires IdenticalKind(p, PrimitiveNames, t).None? && IdenticalKind(p, UnityStructNames, t).None?
    ensures !Applies(Current, p, t, PrimitiveRule) && !Applies(Current, p, t, StructRule)
  {
  }

  lemma FallsToComposite(p: Provider, t: TypeDesc, force: bool)
    requires Loaded(p)
    requires PlainRows(PrimitiveNames) && PlainRows(UnityStructNames)
    requires IdenticalKind(p, PrimitiveNames, t).None? && !t.isEnum && IdenticalKind(p, UnityStructNames, t).None?
    ensures BuildValueSchema(p, t, force) == BuildComposite(p, t, force)
  {
  }

  /** A primitive, an enum or a Unity struct never fails. */
  lemma LeadingRulesCurrent(p: Provider, t: TypeDesc, force: bool)
    requires Loaded(p)
    requires PlainRows(PrimitiveNames) && PlainRows(UnityStructNames)
    requires IdenticalKind(p, PrimitiveNames, t).Some? || t.isEnum || IdenticalKind(p, UnityStructNames, t).Some?
    ensures var r := BuildValueSchema(p, t, force);
      r.Ok? && RuleOf(r.value.kind) == Chosen(Current, p, t) && !HasElement(r.value.kind)
  {
    var r := BuildValueSchema(p, t, force);
    var prim := IdenticalKind(p, PrimitiveNames, t);
    TableRules();
    if prim.Some? {
      assert Chosen(Current, p, t) == PrimitiveRule;
      assert r == Ok(OfKind(prim.value));
      assert RuleOf(prim.value) == PrimitiveRule;
    } else if t.isEnum {
      assert Chosen(Current, p, t) == EnumRule;
    } else {
      var st := IdenticalKind(p, UnityStructNames, t);
      assert Chosen(Current, p, t) == StructRule;
      assert r == Ok(OfKind(st.value));
      assert RuleOf(st.value) == StructRule;
    }
  }

  /** The kind BuildComposite produces follows the composite rules. */
  lemma CompositeRule(p: Provider, t: TypeDesc, force: bool, r: Result<ValueSchema>)
    requires Loaded(p) && r == BuildComposite(p, t, force)
    ensures r.Ok? ==> (RuleOf(r.value.kind) ==
      if t.isArray then ArrayRule
      else if IsList(t) then ListRule
      else if IsOrSubclassOf(t, p.unityObjectType) then UnityObjectRule
      else if IsOrSubclassOf(t, p.blueprintReferenceBaseType) then BlueprintRefRule
      else ObjectRule)
    ensures r.Err? ==> ((t.isArray && (t.element.None? || BuildValueSchema(p, t.element.value, force).Err?))
      || (!t.isArray && IsList(t) && BuildValueSchema(p, t.genericArgs[0], force).Err?))
  {
    if t.isArray {
      ArrayCase(p, t, force);
    } else if IsList(t) {
      ListCase(p, t, force);
    } else {
      ReferenceCase(p, t, force);
      ReferenceRule(p, t, force);
    }
  }

  lemma ReferenceCase(p: Provider, t: TypeDesc, force: bool)
    requires Loaded(p) && !t.isArray && !IsList(t)
    ensures BuildComposite(p, t, force) == Ok(Reference(p, t, force))
  {
  }

  lemma ArrayCase(p: Provider, t: TypeDesc, force: bool)
    requires Loaded(p) && t.isArray
    ensures var r := BuildComposite(p, t, force);
      && (r.Ok? ==> r.value.kind == Array)
      && (r.Err? ==> t.element.None? || BuildValueSchema(p, t.element.value, force).Err?)
  {
  }

  lemma ListCase(p: Provider, t: TypeDesc, force: bool)
    requires Loaded(p) && !t.isArray && IsList(t)
    ensures var r := BuildComposite(p, t, force);
      && (r.Ok? ==> r.value.kind == List)
      && (r.Err? ==> BuildValueSchema(p, t.genericArgs[0], force).Err?)
  {
  }

  lemma CompositeRuleLegacy(p: Provider, t: TypeDesc, r: Result<ValueSchema>)
    requires r == BuildCompositeLegacy(p, t)
    ensures r.Ok? ==> (RuleOf(r.value.kind) ==
      if t.isArray then ArrayRule
      else if IsList(t) then ListRule
      else if IsOrSubclassOf(t, p.unityObjectType) then UnityObjectRule
      else if IsOrSubclassOf(t, p.blueprintReferenceBaseType) then BlueprintRefRule
      else ObjectRule)
    ensures r.Err? ==> ((t.isArray && (t.element.None? || BuildValueSchemaLegacy(p, t.element.value).Err?))
      || (!t.isArray && IsList(t) && BuildValueSchemaLegacy(p, t.genericArgs[0]).Err?))
  {
    if t.isArray {
      ArrayCaseLegacy(p, t);
    } else if IsList(t) {
      ListCaseLegacy(p, t);
    } else {
      ReferenceCaseLegacy(p, t);
      ReferenceRule(p, t, false);
    }
  }

  lemma ReferenceCaseLegacy(p: Provider, t: TypeDesc)
    requires !t.isArray && !IsList(t)
    ensures BuildCompositeLegacy(p, t) == Ok(Reference(p, t, false))
  {
  }

  lemma ArrayCaseLegacy(p: Provider, t: TypeDesc)
    requires t.isArray
    ensures var r := BuildCompositeLegacy(p, t);
      && (r.Ok? ==> r.value.kind == Array)
      && (r.Err? ==> t.element.None? || BuildValueSchemaLegacy(p, t.element.value).Err?)
  {
  }

  lemma ListCaseLegacy(p: Provider, t: TypeDesc)
    requires !t.isArray && IsList(t)
    ensures var r := BuildCompositeLegacy(p, t);
      && (r.Ok? ==> r.value.kind == List)
      && (r.Err? ==> BuildValueSchemaLegacy(p, t.genericArgs[0]).Err?)
  {
  }

  lemma ReferenceRule(p: Provider, t: TypeDesc, force: bool)
    ensures RuleOf(Reference(p, t, force).kind) ==
      if IsOrSubclassOf(t, p.unityObjectType) then UnityObjectRule
      else if IsOrSubclassOf(t, p.blueprintReferenceBaseType) then BlueprintRefRule
      else ObjectRule
  {
  }

  /** The same for the older provider, whose primitive and struct tests
      compare `FullName ?? Name`. */
  lemma ClassificationLegacy(p: Provider, t: TypeDesc)
    ensures var r := BuildValueSchemaLegacy(p, t);
      && (r.Ok? ==> FirstApplicable(Legacy, p, t, RuleOf(r.value.kind)))
      && (r.Err? ==>
            || (FirstApplicable(Legacy, p, t, ArrayRule) && (t.element.None? || BuildValueSchemaLegacy(p, t.element.value).Err?))
            || (FirstApplicable(Legacy, p, t, ListRule) && BuildValueSchemaLegacy(p, t.genericArgs[0]).Err?))
  {
    var r := BuildValueSchemaLegacy(p, t);
    var rule := if r.Ok? then RuleOf(r.value.kind) else if t.isArray then ArrayRule else ListRule;
    ChooseLegacy(p, t);
    ChosenIsFirst(Legacy, p, t, rule);
  }

  lemma ChooseLegacy(p: Provider, t: TypeDesc)
    ensures var r := BuildValueSchemaLegacy(p, t);
      && (r.Ok? ==> RuleOf(r.value.kind) == Chosen(Legacy, p, t))
      && (r.Err? ==>
            || (Chosen(Legacy, p, t) == ArrayRule && t.isArray && (t.element.None? || BuildValueSchemaLegacy(p, t.element.value).Err?))
            || (Chosen(Legacy, p, t) == ListRule && !t.isArray && BuildValueSchemaLegacy(p, t.genericArgs[0]).Err?))
  {
    PlainTables();
    TableRules();
    var r := BuildValueSchemaLegacy(p, t);
    var fn := t.fullName.GetOr(t.name);
    var prim := NamedKind(PrimitiveNames, fn);
    if prim.Some? {
      assert Applies(Legacy, p, t, PrimitiveRule);
      assert RuleOf(prim.value) == PrimitiveRule;
    } else {
      assert !Applies(Legacy, p, t, PrimitiveRule);
      if !t.isEnum {
        var st := NamedKind(UnityStructNames, fn);
        if st.Some? {
          assert Applies(Legacy, p, t, StructRule);
          assert RuleOf(st.value) == StructRule;
        } else {
          assert !Applies(Legacy, p, t, StructRule);
          assert r == BuildCompositeLegacy(p, t);
          ChosenComposite(Legacy, p, t);
          CompositeRuleLegacy(p, t, r);
        }
      }
    }
  }

  /** A type that falls through to the object rule: an identified type gets
      the placeholder schema with no fields, any other type the schema
      BuildSchema builds for it under the empty id; ForceNeedsType is the
      flag passed in. */
  lemma ObjectSchemaCurrent(p: Provider, t: TypeDesc, force: bool)
    requires Loaded(p) && Chosen(Current, p, t) == ObjectRule
    ensures var identified := p.isIdentified(t);
      BuildValueSchema(p, t, force) ==
        Ok(ValueSchema(Object, None, Some(if identified then Placeholder(t) else p.buildSchema(t, Empty)), identified, force))
    ensures p.isIdentified(t) ==> Placeholder(t).fields == [] && Placeholder(t).typeId == Empty
  {
    ChooseCurrent(p, t, force);
    ChosenComposite(Current, p, t);
    PlainTables();
    assert BuildValueSchema(p, t, force) == BuildComposite(p, t, force);
  }

  /** The older provider never sets ForceNeedsType on an object. */
  lemma ObjectSchemaLegacy(p: Provider, t: TypeDesc)
    requires Chosen(Legacy, p, t) == ObjectRule
    ensures var identified := p.isIdentified(t);
      BuildValueSchemaLegacy(p, t) ==
        Ok(ValueSchema(Object, None, Some(if identified then Placeholder(t) else p.buildSchema(t, Empty)), identified, false))
  {
    ChooseLegacy(p, t);
    ChosenComposite(Legacy, p, t);
    PlainTables();
    assert BuildValueSchemaLegacy(p, t) == BuildCompositeLegacy(p, t);
  }

  /** An array's or a list's element schema is the schema of its element
      type, built with the same ForceNeedsType. */
  lemma ElementSchemaCurrent(p: Provider, t: TypeDesc, force: bool)
    requires Loaded(p)
    requires BuildValueSchema(p, t, force).Ok? && HasElement(BuildValueSchema(p, t, force).value.kind)
    ensures var v := BuildValueSchema(p, t, force).value;
      if v.kind == Array then t.element.Some? && Ok(v.element.value) == BuildValueSchema(p, t.element.value, force)
      else IsList(t) && Ok(v.element.value) == BuildValueSchema(p, t.genericArgs[0], force)
  {
    PlainTables();
    if IdenticalKind(p, PrimitiveNames, t).Some? || t.isEnum || IdenticalKind(p, UnityStructNames, t).Some? {
      LeadingRulesCurrent(p, t, force);
    } else {
      var r := BuildComposite(p, t, force);
      assert BuildValueSchema(p, t, force) == r;
      CompositeElement(p, t, force, r);
    }
  }

  lemma CompositeElement(p: Provider, t: TypeDesc, force: bool, r: Result<ValueSchema>)
    requires Loaded(p) && r == BuildComposite(p, t, force)
    requires r.Ok? && HasElement(r.value.kind)
    ensures if r.value.kind == Array then t.element.Some? && Ok(r.value.element.value) == BuildValueSchema(p, t.element.value, force)
      else IsList(t) && Ok(r.value.element.value) == BuildValueSchema(p, t.genericArgs[0], force)
  {
    if !t.isArray && !IsList(t) {
      ReferenceRule(p, t, force);
    }
  }

  lemma CompositeElementLegacy(p: Provider, t: TypeDesc, r: Result<ValueSchema>)
    requires r == BuildCompositeLegacy(p, t)
    requires r.Ok? && HasElement(r.value.kind)
    ensures if r.value.kind == Array then t.element.Some? && Ok(r.value.element.value) == BuildValueSchemaLegacy(p, t.element.value)
      else IsList(t) && Ok(r.value.element.value) == BuildValueSchemaLegacy(p, t.genericArgs[0])
  {
    if !t.isArray && !IsList(t) {
      ReferenceRule(p, t, false);
    }
  }

  lemma ElementSchemaLegacy(p: Provider, t: TypeDesc)
    requires BuildValueSchemaLegacy(p, t).Ok? && HasElement(BuildValueSchemaLegacy(p, t).value.kind)
    ensures var v := BuildValueSchemaLegacy(p, t).value;
      if v.kind == Array then t.element.Some? && Ok(v.element.value) == BuildValueSchemaLegacy(p, t.element.value)
      else IsList(t) && Ok(v.element.value) == BuildValueSchemaLegacy(p, t.genericArgs[0])
  {
    PlainTables();
    var fn := t.fullName.GetOr(t.name);
    assert NamedKind(PrimitiveNames, fn).None? && !t.isEnum && NamedKind(UnityStructNames, fn).None?;
    var r := BuildCompositeLegacy(p, t);
    assert BuildValueSchemaLegacy(p, t) == r;
    CompositeElementLegacy(p, t, r);
  }

  /** When every loaded type is filed under its own full name, a type the
      current provider recognises as a primitive or a Unity struct carries
      that name, so the older provider's name test holds of it too. */
  lemma IdentityImpliesName(p: Provider, t: TypeDesc)
    requires Loaded(p) && FiledByName(p)
    ensures Applies(Current, p, t, PrimitiveRule) ==> Applies(Legacy, p, t, PrimitiveRule)
    ensures Applies(Current, p, t, StructRule) ==> Applies(Legacy, p, t, StructRule)
  {
    if Applies(Current, p, t, PrimitiveRule) {
      var i :| 0 <= i < |PrimitiveNames| && p.typeByFullName[PrimitiveNames[i].0] == t;
      assert t.fullName == Some(PrimitiveNames[i].0);
    }
    if Applies(Current, p, t, StructRule) {
      var i :| 0 <= i < |UnityStructNames| && p.typeByFullName[UnityStructNames[i].0] == t;
      assert t.fullName == Some(UnityStructNames[i].0);
    }
  }

  /** The older provider's BuildSchema: the type's names, the id, and each
      serialized field with the schema BuildValueSchema gives its type, in
      the order the fields are listed; the first field that throws ends it.
      The field list and the enum constants are what reflection reports. */
  function BuildSchemaLegacy(p: Provider, t: TypeDesc, typeId: Guid, fields: seq<(string, TypeDesc)>, enumDef: Option<EnumDef>): (r: Result<TypeSchema>)
    ensures r.Ok? <==> forall i | 0 <= i < |fields| :: BuildValueSchemaLegacy(p, fields[i].1).Ok?
    ensures r.Ok? ==>
      && r.value.name == t.name && r.value.fullName == t.fullName.GetOr(t.name) && r.value.typeId == typeId
      && |r.value.fields| == |fields|
      && forall i | 0 <= i < |fields| ::
           r.value.fields[i] == Field(fields[i].0, BuildValueSchemaLegacy(p, fields[i].1).value)
  {
    var fs :- MapFields(x => BuildValueSchemaLegacy(p, x), fields);
    Ok(TypeSchema(t.name, t.fullName.GetOr(t.name), typeId, fs, enumDef))
  }

  /** `fields.Select(f => new FieldSchema(f.Name, build(f.FieldType))).ToArray()`. */
  function MapFields(build: TypeDesc -> Result<ValueSchema>, fields: seq<(string, TypeDesc)>): (r: Result<seq<Field>>)
    ensures r.Ok? <==> forall i | 0 <= i < |fields| :: build(fields[i].1).Ok?
    ensures r.Ok? ==>
      && |r.value| == |fields|
      && forall i | 0 <= i < |fields| :: r.value[i] == Field(fields[i].0, build(fields[i].1).value)
  {
    if fields == [] then Ok([])
    else
      var init :- MapFields(build, fields[..|fields| - 1]);
      var last := fields[|fields| - 1];
      var v :- build(last.1);
      Ok(init + [Field(last.0, v)])
  }
}
