/**
 * The inputs and records of FlatBufferSchemaGenerator.cs. The reflected header
 * types the generator walks are given here as plain values: one variant per
 * property class it distinguishes, and a tree of types with their children.
 */
module GeneratorTypes {
  import opened Wrappers
  import opened SchemaModel

  /**
   * The property classes `MapToFlatBufferType` tells apart, one variant per case.
   * An array or set carries its element property when there is one; a struct
   * property the source name of its script struct and an enum property the
   * source name of its enum, when those are known.
   */
  datatype PropertyKind =
    | BoolProperty | ByteProperty | Int8Property | Int16Property | UInt16Property
    | IntProperty | UInt32Property | Int64Property | UInt64Property
    | FloatProperty | DoubleProperty
    | StrProperty | NameProperty | TextProperty
    | ArrayProperty(arrayValue: Option<Property>)
    | SetProperty(setValue: Option<Property>)
    | MapProperty
    | ClassProperty | InterfaceProperty | FieldPathProperty | ObjectProperty | ObjectPropertyBase
    | DelegateProperty | MulticastDelegateProperty | VerseValueProperty
    | OptionalProperty
    | StructProperty(scriptStruct: Option<string>)
    | NumericProperty
    | EnumProperty(enumSourceName: Option<string>)
    | VoidProperty
    | OtherProperty

  /** A reflected property: its source name, its class and its metadata. */
  datatype Property = Property(sourceName: string, kind: PropertyKind, metaData: map<string, string>)

  /** One enumerator as declared: its (possibly scope-qualified) name and its value. */
  datatype Enumerator = Enumerator(name: string, value: Long)

  /** What a node of the type tree is; the generator looks only at script structs and enums. */
  datatype TypeKind =
    | ScriptStruct(properties: seq<Property>)
    | Enum(sourceName: Option<string>, underlyingType: string, values: seq<Enumerator>)
    | OtherType

  /** A node of the reflected type tree and its children, in declaration order. */
  datatype UhtType = UhtType(kind: TypeKind, children: seq<UhtType>)

  /** A package: its top-level types. */
  datatype Package = Package(children: seq<UhtType>)

  /** `FlatBufferFieldInfo` (FlatBufferSchemaGenerator.cs lines 15-20). */
  datatype FieldInfo = FieldInfo(name: string, typeName: string, defaultValue: Option<string>, extraAttributes: Option<string>)

  /** `FlatBufferStructInfo` (lines 9-13). */
  datatype StructInfo = StructInfo(structName: string, namespaceName: string, fields: seq<FieldInfo>)

  /** `FlatBufferEnumInfo` (lines 22-26): enumerants are (name, value) pairs. */
  datatype EnumInfo = EnumInfo(enumName: string, underlyingType: string, enumerants: seq<Enumerator>)
}
