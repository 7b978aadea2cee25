/**
 * `BuildSingleStructFbs` (FlatBufferSchemaGenerator.cs lines 382-459): one
 * self-contained schema per struct, holding the enums its fields name, a `Vec3`
 * struct when a field needs one, the struct's own table and its root type.
 */
module Assembler {
  import opened Wrappers
  import opened Text
  import opened SchemaModel
  import opened GeneratorTypes
  import opened Schema

  // ------------------------------------------------------------ enum lookups

  /** `allEnumInfos.FirstOrDefault(e => e.EnumName.Equals(name, OrdinalIgnoreCase))`. */
  function FirstMatch(allEnums: seq<EnumInfo>, name: string): (r: Option<EnumInfo>)
    ensures r.Some? ==> r.value in allEnums && EqualsIgnoreCase(r.value.enumName, name)
  {
    if allEnums == [] then None
    else if EqualsIgnoreCase(allEnums[0].enumName, name) then Some(allEnums[0])
    else FirstMatch(allEnums[1..], name)
  }

  /** `FirstOrDefault` finds an enum exactly when `Any` does, and then the first whose name matches. */
  lemma {:induction false} FirstMatchFirst(allEnums: seq<EnumInfo>, name: string)
    ensures FirstMatch(allEnums, name).Some?
            <==> exists i :: 0 <= i < |allEnums| && EqualsIgnoreCase(allEnums[i].enumName, name)
    ensures FirstMatch(allEnums, name).Some? ==>
              exists i :: 0 <= i < |allEnums| && allEnums[i] == FirstMatch(allEnums, name).value
                          && EqualsIgnoreCase(allEnums[i].enumName, name)
                          && forall j :: 0 <= j < i ==> !EqualsIgnoreCase(allEnums[j].enumName, name)
  {
    if allEnums != [] && !EqualsIgnoreCase(allEnums[0].enumName, name) {
      var rest := allEnums[1..];
      FirstMatchFirst(rest, name);
      if FirstMatch(rest, name).Some? {
        var i :| 0 <= i < |rest| && rest[i] == FirstMatch(rest, name).value
                 && EqualsIgnoreCase(rest[i].enumName, name)
                 && forall j :: 0 <= j < i ==> !EqualsIgnoreCase(rest[j].enumName, name);
        assert allEnums[i + 1] == rest[i];
        forall j | 0 <= j < i + 1
          ensures !EqualsIgnoreCase(allEnums[j].enumName, name)
        {
          if j > 0 {
            assert allEnums[j] == rest[j - 1];
          }
        }
      } else {
        forall i | 0 <= i < |allEnums|
          ensures !EqualsIgnoreCase(allEnums[i].enumName, name)
        {
          if i > 0 {
            assert allEnums[i] == rest[i - 1];
          }
        }
      }
    }
  }

  /** The lookup ignores case: names equal ignoring case find the same enum. */
  lemma {:induction false} FirstMatchIgnoresCase(allEnums: seq<EnumInfo>, a: string, b: string)
    requires EqualsIgnoreCase(a, b)
    ensures FirstMatch(allEnums, a) == FirstMatch(allEnums, b)
  {
    if allEnums != [] {
      FirstMatchIgnoresCase(allEnums[1..], a, b);
    }
  }

  /** Membership in the `HashSet<string>(StringComparer.OrdinalIgnoreCase)`. */
  function MemberIgnoreCase(names: seq<string>, name: string): bool
  {
    if names == [] then false
    else MemberIgnoreCase(names[..|names| - 1], name) || EqualsIgnoreCase(names[|names| - 1], name)
  }

  lemma {:induction false} MemberIgnoreCaseExists(names: seq<string>, name: string)
    ensures MemberIgnoreCase(names, name) <==> exists i :: 0 <= i < |names| && EqualsIgnoreCase(names[i], name)
  {
    if names != [] {
      var n := |names| - 1;
      MemberIgnoreCaseExists(names[..n], name);
      if MemberIgnoreCase(names[..n], name) {
        var i :| 0 <= i < n && EqualsIgnoreCase(names[..n][i], name);
        assert names[i] == names[..n][i];
      }
      if exists i :: 0 <= i < |names| && EqualsIgnoreCase(names[i], name) {
        var i :| 0 <= i < |names| && EqualsIgnoreCase(names[i], name);
        if i < n {
          assert names[..n][i] == names[i];
        }
      }
    }
  }

  // ---------------------------------------------------- the document it builds

  /**
   * The contents of `neededEnumNames` after the field loop: each field type that
   * names a known enum, unless an equal name (ignoring case) is already there,
   * kept in the order first added.
   */
  function NeededEnumNames(fields: seq<FieldInfo>, allEnums: seq<EnumInfo>): (names: seq<string>)
    ensures |names| <= |fields|
  {
    if fields == [] then []
    else
      var names := NeededEnumNames(fields[..|fields| - 1], allEnums);
      var t := fields[|fields| - 1].typeName;
      if FirstMatch(allEnums, t).Some? && !MemberIgnoreCase(names, t) then names + [t] else names
  }

  /** `requiresVec3` after the field loop. */
  function UsesVec3(fields: seq<FieldInfo>): bool
  {
    if fields == [] then false
    else UsesVec3(fields[..|fields| - 1]) || EqualsIgnoreCase(fields[|fields| - 1].typeName, "Vec3")
  }

  /** The flag is set exactly when some field type is `Vec3` ignoring case. */
  lemma {:induction false} UsesVec3Exists(fields: seq<FieldInfo>)
    ensures UsesVec3(fields) <==> exists k :: 0 <= k < |fields| && EqualsIgnoreCase(fields[k].typeName, "Vec3")
  {
    if fields != [] {
      var n := |fields| - 1;
      UsesVec3Exists(fields[..n]);
      if UsesVec3(fields[..n]) {
        var k :| 0 <= k < n && EqualsIgnoreCase(fields[..n][k].typeName, "Vec3");
        assert fields[k] == fields[..n][k];
      }
      if exists k :: 0 <= k < |fields| && EqualsIgnoreCase(fields[k].typeName, "Vec3") {
        var k :| 0 <= k < |fields| && EqualsIgnoreCase(fields[k].typeName, "Vec3");
        if k < n {
          assert fields[..n][k] == fields[k];
        }
      }
    }
  }

  function FieldOf(f: FieldInfo): Field
  {
    Field(f.name, f.typeName, f.defaultValue, f.extraAttributes)
  }

  /** The `FbsField`s of the table: one per field, in field order. */
  function FieldsOf(fields: seq<FieldInfo>): (r: seq<Field>)
    ensures |r| == |fields|
  {
    if fields == [] then [] else FieldsOf(fields[..|fields| - 1]) + [FieldOf(fields[|fields| - 1])]
  }

  lemma {:induction false} FieldsOfAt(fields: seq<FieldInfo>, k: nat)
    requires k < |fields|
    ensures FieldsOf(fields)[k] == FieldOf(fields[k])
  {
    var n := |fields| - 1;
    if k < n {
      assert fields[..n][k] == fields[k];
      FieldsOfAt(fields[..n], k);
    }
  }

  function TableOf(info: StructInfo): RecordDecl
  {
    RecordDecl(info.structName, true, FieldsOf(info.fields))
  }

  /** Each enumerant becomes an enum value with its value written out. */
  function ExplicitValues(enumerants: seq<Enumerator>): (r: seq<EnumValue>)
    ensures |r| == |enumerants|
  {
    if enumerants == [] then []
    else
      var e := enumerants[|enumerants| - 1];
      ExplicitValues(enumerants[..|enumerants| - 1]) + [EnumValue(e.name, Some(e.value))]
  }

  lemma {:induction false} ExplicitValuesAt(enumerants: seq<Enumerator>, k: nat)
    requires k < |enumerants|
    ensures ExplicitValues(enumerants)[k] == EnumValue(enumerants[k].name, Some(enumerants[k].value))
  {
    var n := |enumerants| - 1;
    if k < n {
      assert enumerants[..n][k] == enumerants[k];
      ExplicitValuesAt(enumerants[..n], k);
    }
  }

  function EnumDeclOf(e: EnumInfo): EnumDecl
  {
    EnumDecl(e.enumName, e.underlyingType, ExplicitValues(e.enumerants))
  }

  /** The enums added for the needed names: the first match of each, a name without a match skipped. */
  function NeededEnumDecls(names: seq<string>, allEnums: seq<EnumInfo>): (r: seq<EnumDecl>)
    ensures |r| <= |names|
  {
    if names == [] then []
    else
      NeededEnumDecls(names[..|names| - 1], allEnums) + FoundDecls(names[|names| - 1], allEnums)
  }

  lemma NeededEnumDeclsSnoc(names: seq<string>, i: nat, allEnums: seq<EnumInfo>)
    requires i < |names|
    ensures NeededEnumDecls(names[..i + 1], allEnums) == NeededEnumDecls(names[..i], allEnums) + FoundDecls(names[i], allEnums)
  {
    assert names[..i + 1][..i] == names[..i];
  }

  /** The `Vec3` struct: three `float` fields x, y, z and no defaults or attributes. */
  const Vec3Decl := RecordDecl("Vec3", false, [Field("x", "float", None, None), Field("y", "float", None, None),
                                               Field("z", "float", None, None)])

  /** The schema `BuildSingleStructFbs` fills in before rendering it. */
  function AssembleDocument(info: StructInfo, allEnums: seq<EnumInfo>): (d: Document)
    ensures |d.enums| <= |info.fields|
    ensures 1 <= |d.records| <= 2 && d.records[|d.records| - 1] == TableOf(info)
    ensures d.records[|d.records| - 1].isTable && |d.records[|d.records| - 1].fields| == |info.fields|
    ensures d.unions == [] && d.rootType == Some(info.structName)
  {
    Document(info.namespaceName + "." + info.structName, ["priority"],
             NeededEnumDecls(NeededEnumNames(info.fields, allEnums), allEnums),
             (if UsesVec3(info.fields) then [Vec3Decl] else []) + [TableOf(info)],
             [], Some(info.structName))
  }

  // ---------------------------------------------------------------- the method

  /** Step 2: the field loop, which fills the table and records the enums and `Vec3` it needs. */
  method BuildTable(info: StructInfo, allEnumInfos: seq<EnumInfo>)
    returns (fbsTable: FbsStructOrTable, neededEnumNames: seq<string>, requiresVec3: bool)
    ensures fresh(fbsTable)
    ensures fbsTable.Model() == TableOf(info)
    ensures neededEnumNames == NeededEnumNames(info.fields, allEnumInfos)
    ensures requiresVec3 == UsesVec3(info.fields)
  {
    neededEnumNames := [];
    requiresVec3 := false;
    fbsTable := new FbsStructOrTable(info.structName, true);
    var fields := info.fields;
    for i := 0 to |fields|
      invariant fbsTable.Model() == RecordDecl(info.structName, true, FieldsOf(fields[..i]))
      invariant neededEnumNames == NeededEnumNames(fields[..i], allEnumInfos)
      invariant requiresVec3 == UsesVec3(fields[..i])
    {
      var field := fields[i];
      assert fields[..i + 1][..i] == fields[..i];
      if FirstMatch(allEnumInfos, field.typeName).Some? && !MemberIgnoreCase(neededEnumNames, field.typeName) {
        neededEnumNames := neededEnumNames + [field.typeName];
      }
      if EqualsIgnoreCase(field.typeName, "Vec3") {
        requiresVec3 := true;
      }
      fbsTable.AddField(Field(field.name, field.typeName, field.defaultValue, field.extraAttributes));
    }
    assert fields[..|fields|] == fields;
  }

  /** Step 3, one enum: a new `FbsEnum` holding every enumerant with its value. */
  method NewEnum(found: EnumInfo) returns (fbsEnum: FbsEnum)
    ensures fresh(fbsEnum)
    ensures fbsEnum.Model() == EnumDeclOf(found)
  {
    fbsEnum := new FbsEnum(found.enumName, found.underlyingType);
    var enumerants := found.enumerants;
    for i := 0 to |enumerants|
      invariant fbsEnum.Model() == EnumDecl(found.enumName, found.underlyingType, ExplicitValues(enumerants[..i]))
    {
      assert enumerants[..i + 1][..i] == enumerants[..i];
      fbsEnum.AddValue(EnumValue(enumerants[i].name, Some(enumerants[i].value)));
    }
    assert enumerants[..|enumerants|] == enumerants;
  }

  /** Step 4: the `Vec3` struct. */
  method NewVec3() returns (vec3Struct: FbsStructOrTable)
    ensures fresh(vec3Struct)
    ensures vec3Struct.Model() == Vec3Decl
  {
    vec3Struct := new FbsStructOrTable("Vec3", false);
    vec3Struct.AddField(Field("x", "float", None, None));
    vec3Struct.AddField(Field("y", "float", None, None));
    vec3Struct.AddField(Field("z", "float", None, None));
  }

  /** The enum added for one needed name: its first match, or nothing. */
  function FoundDecls(name: string, allEnums: seq<EnumInfo>): seq<EnumDecl>
  {
    var m := FirstMatch(allEnums, name);
    if m.Some? then [EnumDeclOf(m.value)] else []
  }

  /** Step 3, one name: the first enum matching it is built and added to the schema. */
  method AddEnumFor(schema: FlatBufferSchema, name: string, allEnumInfos: seq<EnumInfo>)
    modifies schema
    ensures schema.Model() == old(schema.Model()).(enums := old(schema.Model()).enums + FoundDecls(name, allEnumInfos))
  {
    var found := FirstMatch(allEnumInfos, name);
    if found.Some? {
      var fbsEnum := NewEnum(found.value);
      schema.AddEnum(fbsEnum);
    }
  }

  /** Step 3: one enum per needed name that has a match, in the order of the names. */
  method AddNeededEnums(schema: FlatBufferSchema, neededEnumNames: seq<string>, allEnumInfos: seq<EnumInfo>)
    modifies schema
    ensures schema.Model()
            == old(schema.Model()).(enums := old(schema.Model()).enums + NeededEnumDecls(neededEnumNames, allEnumInfos))
  {
    ghost var before := schema.Model();
    for i := 0 to |neededEnumNames|
      invariant schema.Model() == before.(enums := before.enums + NeededEnumDecls(neededEnumNames[..i], allEnumInfos))
    {
      NeededEnumDeclsSnoc(neededEnumNames, i, allEnumInfos);
      AddEnumFor(schema, neededEnumNames[i], allEnumInfos);
      AppendAssoc(before.enums, NeededEnumDecls(neededEnumNames[..i], allEnumInfos),
                  FoundDecls(neededEnumNames[i], allEnumInfos));
    }
    assert neededEnumNames[..|neededEnumNames|] == neededEnumNames;
  }

  /** Step 1: the schema with its namespace and the `priority` attribute. */
  method NewSchema(namespaceName: string) returns (schema: FlatBufferSchema)
    ensures fresh(schema)
    ensures schema.Model() == Document(namespaceName, ["priority"], [], [], [], None)
  {
    schema := new FlatBufferSchema();
    schema.SetNamespaceName(namespaceName);
    schema.AddFileLevelAttribute("priority");
  }

  /** Steps 4 and 5: the `Vec3` struct when it is needed, then the table. */
  method AddRecords(schema: FlatBufferSchema, requiresVec3: bool, fbsTable: FbsStructOrTable)
    modifies schema
    ensures schema.Model()
            == old(schema.Model()).(records := old(schema.Model()).records
                                               + (if requiresVec3 then [Vec3Decl] else []) + [old(fbsTable.Model())])
  {
    if requiresVec3 {
      var vec3Struct := NewVec3();
      schema.AddStructOrTable(vec3Struct);
    }
    schema.AddStructOrTable(fbsTable);
  }

  /** Step 6: the root type is the struct's name, and the schema is rendered. */
  method RenderWithRoot(schema: FlatBufferSchema, rootType: string) returns (text: string)
    modifies schema
    ensures text == DocumentText(old(schema.Model()).(rootType := Some(rootType)))
  {
    schema.SetRootType(Some(rootType));
    text := schema.ToFbsString();
  }

  /** `BuildSingleStructFbs`: the text of the assembled schema. */
  method BuildSingleStructFbs(structInfo: StructInfo, allEnumInfos: seq<EnumInfo>) returns (text: string)
    ensures text == DocumentText(AssembleDocument(structInfo, allEnumInfos))
  {
    var schema := NewSchema(structInfo.namespaceName + "." + structInfo.structName);
    ghost var initial := schema.Model();
    var fbsTable, neededEnumNames, requiresVec3 := BuildTable(structInfo, allEnumInfos);
    assert schema.Model() == initial;
    AddNeededEnums(schema, neededEnumNames, allEnumInfos);
    assert [] + NeededEnumDecls(neededEnumNames, allEnumInfos) == NeededEnumDecls(neededEnumNames, allEnumInfos);
    AddRecords(schema, requiresVec3, fbsTable);
    ghost var filled := schema.Model();
    assert filled.(rootType := Some(structInfo.structName)) == AssembleDocument(structInfo, allEnumInfos);
    text := RenderWithRoot(schema, structInfo.structName);
  }
}
