/** How the schema provider turns the int32 read for an enum field into
    the text written to JSON: the names of the matching constants. */
module EnumNames {
  import opened Base
  import Schema
  import Guids

  /** The integral types an enum may have as underlying type. */
  datatype Integral = SByte | Byte | Int16 | UInt16 | Int32 | UInt32 | Int64 | UInt64

  /** GetRuntimePrimitiveTypeFromMetadataType: maps the metadata type's full
      name to the runtime type; any other name is NotSupported. */
  function RuntimePrimitiveType(fullName: string): (r: Result<Integral>)
    ensures r.Err? ==> r.error == UnsupportedEnumType
  {
    if fullName == "System.Int32" then Ok(Int32)
    else if fullName == "System.UInt32" then Ok(UInt32)
    else if fullName == "System.Int64" then Ok(Int64)
    else if fullName == "System.UInt64" then Ok(UInt64)
    else if fullName == "System.Byte" then Ok(Byte)
    else if fullName == "System.SByte" then Ok(SByte)
    else if fullName == "System.Int16" then Ok(Int16)
    else if fullName == "System.UInt16" then Ok(UInt16)
    else Err(UnsupportedEnumType)
  }

  function MinValue(t: Integral): int
  {
    match t
    case SByte => -0x80
    case Int16 => -0x8000
    case Int32 => -0x8000_0000
    case Int64 => -0x8000_0000_0000_0000
    case _ => 0
  }

  function MaxValue(t: Integral): int
  {
    match t
    case SByte => 0x7F
    case Byte => 0xFF
    case Int16 => 0x7FFF
    case UInt16 => 0xFFFF
    case Int32 => 0x7FFF_FFFF
    case UInt32 => 0xFFFF_FFFF
    case Int64 => 0x7FFF_FFFF_FFFF_FFFF
    case UInt64 => 0xFFFF_FFFF_FFFF_FFFF
  }

  /** Convert.ChangeType of an integer to an integral type: the same number,
      or an OverflowException when it is out of the type's range. */
  function ChangeType(value: int, t: Integral): (r: Result<int>)
    ensures r.Ok? <==> MinValue(t) <= value <= MaxValue(t)
    ensures r.Ok? ==> r.value == value
  {
    if MinValue(t) <= value <= MaxValue(t) then Ok(value) else Err(Overflow)
  }

  predicate InInt64(x: int)
  {
    -0x8000_0000_0000_0000 <= x < 0x8000_0000_0000_0000
  }

  /** Convert.ToInt64 of a constant's raw value. */
  function ToInt64(x: int): (r: Result<int>)
    ensures r.Ok? <==> InInt64(x)
    ensures r.Ok? ==> r.value == x
  {
    if InInt64(x) then Ok(x) else Err(Overflow)
  }

  /** The 64-bit two's complement pattern of a long, as a natural number. */
  function Bits64(x: int): nat
    requires InInt64(x)
  {
    x % 0x1_0000_0000_0000_0000
  }

  /** Bitwise and of two natural numbers. */
  function And(a: nat, b: nat): nat
  {
    if a == 0 || b == 0 then 0
    else 2 * And(a / 2, b / 2) + (if a % 2 == 1 && b % 2 == 1 then 1 else 0)
  }

  /** `(a & b) != 0` on longs. */
  predicate Overlaps(a: int, b: int)
    requires InInt64(a) && InInt64(b)
  {
    And(Bits64(a), Bits64(b)) != 0
  }

  /** The names of the constants sharing a bit with `v`, in declaration
      order; the lazy enumeration throws when a constant does not fit a long. */
  function FlagNames(cs: seq<Schema.EnumConstant>, v: int): (r: Result<seq<string>>)
    requires InInt64(v)
    ensures r.Ok? ==> |r.value| <= |cs|
    ensures r.Err? ==> r.error == Overflow
  {
    if cs == [] then Ok([])
    else
      var prefix :- FlagNames(cs[..|cs| - 1], v);
      var c := cs[|cs| - 1];
      var x :- ToInt64(c.value);
      Ok(if Overlaps(x, v) then prefix + [c.name] else prefix)
  }

  /** `fields.First(f => value of f == v).Name`, with any exception of the
      search (no match, a constant that does not fit a long) caught as "Unset". */
  function FirstExact(cs: seq<Schema.EnumConstant>, v: int): (r: string)
    ensures r == "Unset" || exists i | 0 <= i < |cs| :: cs[i].name == r
  {
    if cs == [] then "Unset"
    else
      var x := ToInt64(cs[0].value);
      if x.Err? then "Unset"
      else if x.value == v then cs[0].name
      else FirstExact(cs[1..], v)
  }

  /** GetEnumName as the provider under TypeSchemaProvider/ has it:
      [Flags] enums list every constant overlapping the value, joined with
      " | "; other enums give the first constant equal to the value, or "Unset". */
  function GetEnumName(t: Schema.TypeSchema, value: int): (r: Result<string>)
    ensures t.enumDef.None? ==> r == Err(NotAnEnum)
    ensures r.Err? ==> r.error in {NotAnEnum, UnsupportedEnumType, Overflow}
    ensures t.enumDef.Some? && !t.enumDef.value.isFlags && r.Ok? ==>
      r.value == "Unset" || exists i | 0 <= i < |t.enumDef.value.constants| :: t.enumDef.value.constants[i].name == r.value
  {
    if t.enumDef.None? then Err(NotAnEnum)
    else
      var e := t.enumDef.value;
      var u :- RuntimePrimitiveType(e.underlying);
      var raw :- ChangeType(value, u);
      var v :- ToInt64(raw);
      if e.isFlags then
        var names :- FlagNames(e.constants, v);
        Ok(Join(" | ", names))
      else Ok(FirstExact(e.constants, v))
  }

  /** GetEnumName as the older provider has it: every enum is read as flags. */
  function GetEnumNameLegacy(t: Schema.TypeSchema, value: int): (r: Result<string>)
    ensures t.enumDef.None? ==> r == Err(NotAnEnum)
    ensures r.Err? ==> r.error in {NotAnEnum, UnsupportedEnumType, Overflow}
    ensures t.enumDef.Some? && t.enumDef.value.isFlags ==> r == GetEnumName(t, value)
  {
    if t.enumDef.None? then Err(NotAnEnum)
    else
      var e := t.enumDef.value;
      var u :- RuntimePrimitiveType(e.underlying);
      var raw :- ChangeType(value, u);
      var v :- ToInt64(raw);
      var names :- FlagNames(e.constants, v);
      Ok(Join(" | ", names))
  }

  /** The flag listing succeeds exactly when every constant fits a long. */
  lemma {:induction false} FlagNamesDefined(cs: seq<Schema.EnumConstant>, v: int)
    requires InInt64(v)
    ensures FlagNames(cs, v).Ok? <==> forall i :: 0 <= i < |cs| ==> InInt64(cs[i].value)
  {
    if cs != [] {
      FlagNamesDefined(cs[..|cs| - 1], v);
      assert forall i :: 0 <= i < |cs| - 1 ==> cs[..|cs| - 1][i] == cs[i];
    }
  }

  predicate Listed(cs: seq<Schema.EnumConstant>, v: int, name: string, i: int)
    requires InInt64(v)
  {
    0 <= i < |cs| && cs[i].name == name && InInt64(cs[i].value) && Overlaps(cs[i].value, v)
  }

  lemma FlagNamesSnoc(cs: seq<Schema.EnumConstant>, c: Schema.EnumConstant, v: int)
    requires InInt64(v) && FlagNames(cs, v).Ok? && InInt64(c.value)
    ensures FlagNames(cs + [c], v)
      == Ok(if Overlaps(c.value, v) then FlagNames(cs, v).value + [c.name] else FlagNames(cs, v).value)
  {
    assert (cs + [c])[..|cs|] == cs;
  }

  /** A name is listed exactly when some constant with that name shares a
      bit with the value. */
  lemma {:induction false} FlagNamesMembers(cs: seq<Schema.EnumConstant>, v: int, name: string)
    requires InInt64(v) && FlagNames(cs, v).Ok?
    ensures name in FlagNames(cs, v).value <==> exists i :: Listed(cs, v, name, i)
  {
    if cs != [] {
      var init := cs[..|cs| - 1];
      var c := cs[|cs| - 1];
      assert cs == init + [c];
      FlagNamesMembers(init, v, name);
      FlagNamesDefined(cs, v);
      assert InInt64(c.value);
      FlagNamesSnoc(init, c, v);
      if name in FlagNames(cs, v).value {
        if name in FlagNames(init, v).value {
          var i :| Listed(init, v, name, i);
          assert Listed(cs, v, name, i);
        } else {
          assert Listed(cs, v, name, |cs| - 1);
        }
      }
      if exists i :: Listed(cs, v, name, i) {
        var i :| Listed(cs, v, name, i);
        if i < |init| {
          assert Listed(init, v, name, i);
        }
      }
    }
  }

  /** A zero value lists no name, whatever the enum: a [Flags] enum's zero
      is written as the empty string. */
  lemma {:induction false} FlagNamesOfZero(cs: seq<Schema.EnumConstant>)
    requires FlagNames(cs, 0).Ok?
    ensures FlagNames(cs, 0).value == []
  {
    if cs != [] {
      FlagNamesOfZero(cs[..|cs| - 1]);
      var c := cs[|cs| - 1];
      if InInt64(c.value) {
        assert Bits64(0) == 0;
      }
    }
  }

  /** A constant whose value is zero is never listed. */
  lemma ZeroConstantNeverListed(cs: seq<Schema.EnumConstant>, v: int, i: nat)
    requires InInt64(v) && FlagNames(cs, v).Ok? && i < |cs| && cs[i].value == 0
    requires forall j :: 0 <= j < |cs| && cs[j].name == cs[i].name ==> j == i
    ensures cs[i].name !in FlagNames(cs, v).value
  {
    FlagNamesMembers(cs, v, cs[i].name);
    assert Bits64(0) == 0;
  }

  /** The non-flags lookup returns the first constant equal to the value,
      provided every constant before it fits a long. */
  lemma {:induction false} FirstExactFinds(cs: seq<Schema.EnumConstant>, v: int, i: nat)
    requires i < |cs| && cs[i].value == v && InInt64(v)
    requires forall j :: 0 <= j < i ==> InInt64(cs[j].value) && cs[j].value != v
    ensures FirstExact(cs, v) == cs[i].name
  {
    if i > 0 {
      FirstExactFinds(cs[1..], v, i - 1);
    }
  }

  /** With no constant equal to the value the lookup gives "Unset". */
  lemma {:induction false} FirstExactMisses(cs: seq<Schema.EnumConstant>, v: int)
    requires forall j :: 0 <= j < |cs| ==> cs[j].value != v
    ensures FirstExact(cs, v) == "Unset"
  {
    if cs != [] {
      FirstExactMisses(cs[1..], v);
    }
  }

  /** The flag listing joined with " | ", or the listing's error. */
  function JoinedFlagNames(cs: seq<Schema.EnumConstant>, v: int): Result<string>
    requires InInt64(v)
  {
    var names :- FlagNames(cs, v);
    Ok(Join(" | ", names))
  }

  /** For an enum over int32 both providers accept every int32 value: the
      newer one then picks by the [Flags] attribute, the older one always
      lists flags. */
  lemma Int32EnumName(t: Schema.TypeSchema, value: int)
    requires t.enumDef.Some? && t.enumDef.value.underlying == "System.Int32"
    requires -0x8000_0000 <= value < 0x8000_0000
    ensures GetEnumName(t, value)
      == if t.enumDef.value.isFlags then JoinedFlagNames(t.enumDef.value.constants, value)
         else Ok(FirstExact(t.enumDef.value.constants, value))
    ensures GetEnumNameLegacy(t, value) == JoinedFlagNames(t.enumDef.value.constants, value)
  {
    assert RuntimePrimitiveType("System.Int32") == Ok(Integral.Int32);
  }

  /** Three constants A = 1, B = 2, C = 3 all overlap the value 3. */
  lemma FlagNamesOfThree()
    ensures FlagNames([Schema.EnumConstant("A", 1), Schema.EnumConstant("B", 2), Schema.EnumConstant("C", 3)], 3)
      == Ok(["A", "B", "C"])
  {
    var a, b, c := Schema.EnumConstant("A", 1), Schema.EnumConstant("B", 2), Schema.EnumConstant("C", 3);
    assert And(1, 3) == 1 && And(2, 3) == 2 && And(3, 3) == 3;
    assert Bits64(1) == 1 && Bits64(2) == 2 && Bits64(3) == 3;
    assert Overlaps(1, 3) && Overlaps(2, 3) && Overlaps(3, 3);
    assert FlagNames([], 3) == Ok([]);
    FlagNamesSnoc([], a, 3);
    assert [] + [a] == [a] && [] + [a.name] == ["A"];
    assert FlagNames([a], 3) == Ok(["A"]);
    FlagNamesSnoc([a], b, 3);
    assert [a] + [b] == [a, b] && ["A"] + [b.name] == ["A", "B"];
    assert FlagNames([a, b], 3) == Ok(["A", "B"]);
    FlagNamesSnoc([a, b], c, 3);
    assert [a, b] + [c] == [a, b, c] && ["A", "B"] + [c.name] == ["A", "B", "C"];
  }

  lemma JoinOfThree()
    ensures Join(" | ", ["A", "B", "C"]) == "A | B | C"
  {
    JoinSnoc(" | ", ["A"], "B");
    JoinSnoc(" | ", ["A", "B"], "C");
    assert ["A"] + ["B"] == ["A", "B"] && ["A", "B"] + ["C"] == ["A", "B", "C"];
  }

  /** The older provider reads a plain enum as flags: for the constants
      A = 1, B = 2, C = 3 and the value 3, the newer provider writes "C" and
      the older one "A | B | C". */
  lemma LegacyReadsEveryEnumAsFlags()
    ensures var cs := [Schema.EnumConstant("A", 1), Schema.EnumConstant("B", 2), Schema.EnumConstant("C", 3)];
      var t := Schema.TypeSchema("E", "E", Guids.Empty, [], Some(Schema.EnumDef(cs, false, "System.Int32")));
      GetEnumName(t, 3) == Ok("C") && GetEnumNameLegacy(t, 3) == Ok("A | B | C")
  {
    var cs := [Schema.EnumConstant("A", 1), Schema.EnumConstant("B", 2), Schema.EnumConstant("C", 3)];
    var t := Schema.TypeSchema("E", "E", Guids.Empty, [], Some(Schema.EnumDef(cs, false, "System.Int32")));
    Int32EnumName(t, 3);
    FlagNamesOfThree();
    JoinOfThree();
    FirstExactFinds(cs, 3, 2);
  }

  /** 6 shares a bit with 2 and 4 and none with 1 and 8. */
  lemma OverlapsOfSix()
    ensures !Overlaps(1, 6) && Overlaps(2, 6) && Overlaps(4, 6) && !Overlaps(8, 6)
  {
    assert And(1, 6) == 0 && And(2, 6) == 2 && And(4, 6) == 4 && And(8, 6) == 0;
    assert Bits64(1) == 1 && Bits64(2) == 2 && Bits64(4) == 4 && Bits64(8) == 8 && Bits64(6) == 6;
  }

  /** Constants A = 1, B = 2, C = 4, D = 8 overlapping the value 6. */
  lemma FlagNamesOfSix()
    ensures FlagNames([Schema.EnumConstant("A", 1), Schema.EnumConstant("B", 2), Schema.EnumConstant("C", 4), Schema.EnumConstant("D", 8)], 6)
      == Ok(["B", "C"])
  {
    var a, b, c, d := Schema.EnumConstant("A", 1), Schema.EnumConstant("B", 2), Schema.EnumConstant("C", 4), Schema.EnumConstant("D", 8);
    OverlapsOfSix();
    assert FlagNames([], 6) == Ok([]);
    FlagNamesSnoc([], a, 6);
    assert [] + [a] == [a];
    assert FlagNames([a], 6) == Ok([]);
    FlagNamesSnoc([a], b, 6);
    assert [a] + [b] == [a, b] && [] + [b.name] == ["B"];
    assert FlagNames([a, b], 6) == Ok(["B"]);
    FlagNamesSnoc([a, b], c, 6);
    assert [a, b] + [c] == [a, b, c] && ["B"] + [c.name] == ["B", "C"];
    assert FlagNames([a, b, c], 6) == Ok(["B", "C"]);
    FlagNamesSnoc([a, b, c], d, 6);
    assert [a, b, c] + [d] == [a, b, c, d];
  }

  /** A [Flags] enum with A = 1, B = 2, C = 4, D = 8 writes 6 as "B | C". */
  lemma FlagsExample()
    ensures var cs := [Schema.EnumConstant("A", 1), Schema.EnumConstant("B", 2), Schema.EnumConstant("C", 4), Schema.EnumConstant("D", 8)];
      var t := Schema.TypeSchema("F", "F", Guids.Empty, [], Some(Schema.EnumDef(cs, true, "System.Int32")));
      GetEnumName(t, 6) == Ok("B | C")
  {
    var cs := [Schema.EnumConstant("A", 1), Schema.EnumConstant("B", 2), Schema.EnumConstant("C", 4), Schema.EnumConstant("D", 8)];
    var t := Schema.TypeSchema("F", "F", Guids.Empty, [], Some(Schema.EnumDef(cs, true, "System.Int32")));
    Int32EnumName(t, 6);
    FlagNamesOfSix();
    JoinSnoc(" | ", ["B"], "C");
    assert ["B"] + ["C"] == ["B", "C"];
    assert Join(" | ", ["B", "C"]) == "B | C";
  }
}
