/**
 * `MapToFlatBufferType` (FlatBufferSchemaGenerator.cs lines 152-245): the schema
 * type a reflected property is written with, and whether it names an enum.
 */
module TypeMapper {
  import opened Wrappers
  import opened Text
  import opened GeneratorTypes

  /** The returned type together with the `isEnum` and `enumName` out-parameters. */
  datatype Mapped = Mapped(typeName: string, isEnum: bool, enumName: Option<string>)

  /** The schema names the mapper can return for a property that is not a vector. */
  predicate IsScalarName(t: string)
  {
    t in {"bool", "ubyte", "byte", "short", "ushort", "int", "uint", "long", "ulong", "float", "double",
          "string", "table", "Vec3"}
  }

  /** A scalar name, the untyped vector `[]`, or a vector `[T]` of such a type. */
  predicate IsSchemaType(t: string)
    decreases |t|
  {
    IsScalarName(t) || t == "[]" || (|t| >= 2 && t[0] == '[' && t[|t| - 1] == ']' && IsSchemaType(t[1..|t| - 1]))
  }

  /** `ScriptStruct?.SourceName ?? "UnknownStruct"`. */
  function StructName(scriptStruct: Option<string>): string
  {
    if scriptStruct.Some? then scriptStruct.value else "UnknownStruct"
  }

  function Plain(t: string): Mapped
  {
    Mapped(t, false, None)
  }

  /**
   * The mapping itself. A vector maps its element one level down and discards the
   * element's enum information; only an enum property sets `isEnum`, and then the
   * enum's source name (or `int`) is reported beside the returned `int`.
   */
  function MapToFlatBufferType(p: Property): (m: Mapped)
    ensures m.isEnum <==> p.kind.EnumProperty?
    ensures m.enumName.Some? <==> m.isEnum
    decreases p
  {
    match p.kind
    case BoolProperty => Plain("bool")
    case ByteProperty => Plain("ubyte")
    case Int8Property => Plain("byte")
    case Int16Property => Plain("short")
    case UInt16Property => Plain("ushort")
    case IntProperty => Plain("int")
    case UInt32Property => Plain("uint")
    case Int64Property => Plain("long")
    case UInt64Property => Plain("ulong")
    case FloatProperty => Plain("float")
    case DoubleProperty => Plain("double")
    case StrProperty => Plain("string")
    case NameProperty => Plain("string")
    case TextProperty => Plain("string")
    case ArrayProperty(value) =>
      if value.Some? then Plain("[" + MapToFlatBufferType(value.value).typeName + "]") else Plain("[]")
    case SetProperty(value) =>
      if value.Some? then Plain("[" + MapToFlatBufferType(value.value).typeName + "]") else Plain("[]")
    case MapProperty => Plain("table")
    case ClassProperty => Plain("string")
    case InterfaceProperty => Plain("string")
    case FieldPathProperty => Plain("string")
    case ObjectProperty => Plain("string")
    case ObjectPropertyBase => Plain("string")
    case DelegateProperty => Plain("string")
    case MulticastDelegateProperty => Plain("string")
    case VerseValueProperty => Plain("string")
    case OptionalProperty => Plain("table")
    case StructProperty(s) => if EqualsIgnoreCase(StructName(s), "FVector") then Plain("Vec3") else Plain("table")
    case NumericProperty => Plain("int")
    case EnumProperty(e) => Mapped("int", true, Some(if e.Some? then e.value else "int"))
    case VoidProperty => Plain("string")
    case OtherProperty => Plain("string")
  }

  /** Outside arrays and sets the returned type is one of the scalar names. */
  lemma ScalarMapping(p: Property)
    requires !IsContainer(p.kind)
    ensures IsScalarName(MapToFlatBufferType(p).typeName)
  {
  }

  /** Every returned type is a schema scalar, `[]`, or a vector of a returned type. */
  lemma {:induction false} MappedIsSchemaType(p: Property)
    ensures IsSchemaType(MapToFlatBufferType(p).typeName)
    decreases p
  {
    if !IsContainer(p.kind) {
      ScalarMapping(p);
    } else if ContainerValue(p.kind).Some? {
      var element := ContainerValue(p.kind).value;
      MappedIsSchemaType(element);
      var inner := MapToFlatBufferType(element).typeName;
      var t := "[" + inner + "]";
      assert MapToFlatBufferType(p).typeName == t;
      assert t[1..|t| - 1] == inner;
    }
  }

  /** The vector cases: exactly arrays and sets give a bracketed type. */
  predicate IsContainer(k: PropertyKind)
  {
    k.ArrayProperty? || k.SetProperty?
  }

  function ContainerValue(k: PropertyKind): Option<Property>
    requires IsContainer(k)
  {
    if k.ArrayProperty? then k.arrayValue else k.setValue
  }

  /** The kinds that map to the catch-all `string`. */
  predicate MapsToString(k: PropertyKind)
  {
    k.StrProperty? || k.NameProperty? || k.TextProperty? || k.ClassProperty? || k.InterfaceProperty?
    || k.FieldPathProperty? || k.ObjectProperty? || k.ObjectPropertyBase? || k.DelegateProperty?
    || k.MulticastDelegateProperty? || k.VerseValueProperty? || k.VoidProperty? || k.OtherProperty?
  }

  /** A type starting with `[` comes from an array or set, and such a type ends with `]`. */
  lemma VectorTypes(p: Property)
    ensures var t := MapToFlatBufferType(p).typeName;
            (t[0] == '[' <==> IsContainer(p.kind))
            && (IsContainer(p.kind) && ContainerValue(p.kind).None? ==> t == "[]")
            && (IsContainer(p.kind) && ContainerValue(p.kind).Some? ==>
                  t == "[" + MapToFlatBufferType(ContainerValue(p.kind).value).typeName + "]")
  {
  }

  /** `Vec3` is returned for a struct property named `FVector` in any letter case, and for nothing else. */
  lemma Vec3Exactly(p: Property)
    ensures MapToFlatBufferType(p).typeName == "Vec3"
            <==> p.kind.StructProperty? && EqualsIgnoreCase(StructName(p.kind.scriptStruct), "FVector")
  {
    VectorTypes(p);
  }

  /** `table` is returned for maps, optionals and every struct that is not `FVector`. */
  lemma TableExactly(p: Property)
    ensures MapToFlatBufferType(p).typeName == "table"
            <==> p.kind.MapProperty? || p.kind.OptionalProperty?
                 || (p.kind.StructProperty? && !EqualsIgnoreCase(StructName(p.kind.scriptStruct), "FVector"))
  {
    VectorTypes(p);
  }

  /** `string` is returned for text-like, object-like, delegate, void and unrecognised properties. */
  lemma StringExactly(p: Property)
    ensures MapToFlatBufferType(p).typeName == "string" <==> MapsToString(p.kind)
  {
    VectorTypes(p);
  }

  /** An enum reports its source name, or `int` when the enum is unknown, and returns `int`. */
  lemma EnumReported(p: Property)
    requires p.kind.EnumProperty?
    ensures MapToFlatBufferType(p).typeName == "int"
    ensures MapToFlatBufferType(p).enumName
            == Some(if p.kind.enumSourceName.Some? then p.kind.enumSourceName.value else "int")
  {
  }

  /** The element's enum information is dropped: an array or set of enums is `[int]`. */
  lemma VectorOfEnums(p: Property, element: Property)
    requires IsContainer(p.kind) && ContainerValue(p.kind) == Some(element) && element.kind.EnumProperty?
    ensures MapToFlatBufferType(p) == Mapped("[int]", false, None)
  {
    EnumReported(element);
    assert MapToFlatBufferType(p).typeName == "[" + "int" + "]";
  }
}
