/**
 * The mutable schema containers of FlatBufferSchema.cs. Callers fill their lists
 * with `Add` and set `NamespaceName` and `RootType`; each `ToFbsString` only reads
 * the lists and yields the text `SchemaModel` assigns to the container's value.
 */
module Schema {
  import opened Wrappers
  import opened Text
  import opened SchemaModel

  class FbsEnum {
    const Name: string
    const UnderlyingType: string
    var Values: seq<EnumValue>

    constructor (name: string, underlyingType: string)
      ensures Model() == EnumDecl(name, underlyingType, [])
    {
      Name := name;
      UnderlyingType := underlyingType;
      Values := [];
    }

    function Model(): EnumDecl
      reads this
    {
      EnumDecl(Name, UnderlyingType, Values)
    }

    /** `Values.Add(v)`. */
    method AddValue(v: EnumValue)
      modifies this
      ensures Values == old(Values) + [v]
    {
      Values := Values + [v];
    }

    method ToFbsString() returns (s: string)
      ensures s == EnumText(Model())
    {
      var items: seq<string> := [];
      for i := 0 to |Values|
        invariant items == EnumItems(Values[..i])
      {
        var v := Values[i];
        var item := if v.explicitValue.Some? then v.name + " = " + DecimalText(v.explicitValue.value) else v.name;
        assert Values[..i + 1][..i] == Values[..i];
        items := items + [item];
      }
      assert Values[..|Values|] == Values;
      s := "enum " + Name + " : " + UnderlyingType + " { " + Join(items, ", ") + " }";
    }
  }

  class FbsStructOrTable {
    const Name: string
    const IsTable: bool
    var Fields: seq<Field>

    constructor (name: string, isTable: bool)
      ensures Model() == RecordDecl(name, isTable, [])
    {
      Name := name;
      IsTable := isTable;
      Fields := [];
    }

    function Model(): RecordDecl
      reads this
    {
      RecordDecl(Name, IsTable, Fields)
    }

    /** `Fields.Add(f)`. */
    method AddField(f: Field)
      modifies this
      ensures Fields == old(Fields) + [f]
    {
      Fields := Fields + [f];
    }

    method ToFbsString() returns (s: string)
      ensures s == RecordText(Model())
    {
      var kind := if IsTable then "table" else "struct";
      var sb := kind + " " + Name + " {" + "\n";
      ghost var header := sb;
      for i := 0 to |Fields|
        invariant sb == header + Unlines(FieldLines(Fields[..i]))
      {
        var line := "  " + FieldText(Fields[i]);
        assert Fields[..i + 1][..i] == Fields[..i];
        AppendLine(header, FieldLines(Fields[..i]), line);
        sb := sb + (line + "\n");
      }
      assert Fields[..|Fields|] == Fields;
      sb := sb + "}";
      s := sb;
    }
  }

  class FbsUnion {
    const Name: string
    var Types: seq<string>

    constructor (name: string)
      ensures Model() == UnionDecl(name, [])
    {
      Name := name;
      Types := [];
    }

    function Model(): UnionDecl
      reads this
    {
      UnionDecl(Name, Types)
    }

    /** `Types.Add(t)`. */
    method AddType(t: string)
      modifies this
      ensures Types == old(Types) + [t]
    {
      Types := Types + [t];
    }

    function ToFbsString(): (s: string)
      reads this
      ensures s == UnionText(Model())
      ensures "union " + Name + " { " <= s && EndsWith(s, " }")
    {
      UnionText(Model())
    }
  }

  // The three element classes share no common type here, so each list of them has
  // its own model function, and each its own pointwise lemma below.

  function EnumModels(es: seq<FbsEnum>): (ds: seq<EnumDecl>)
    reads es
    ensures |ds| == |es|
  {
    if es == [] then [] else EnumModels(es[..|es| - 1]) + [es[|es| - 1].Model()]
  }

  function RecordModels(rs: seq<FbsStructOrTable>): (ds: seq<RecordDecl>)
    reads rs
    ensures |ds| == |rs|
  {
    if rs == [] then [] else RecordModels(rs[..|rs| - 1]) + [rs[|rs| - 1].Model()]
  }

  function UnionModels(us: seq<FbsUnion>): (ds: seq<UnionDecl>)
    reads us
    ensures |ds| == |us|
  {
    if us == [] then [] else UnionModels(us[..|us| - 1]) + [us[|us| - 1].Model()]
  }

  lemma {:induction false} EnumModelsAt(es: seq<FbsEnum>, k: nat)
    requires k < |es|
    ensures EnumModels(es)[k] == es[k].Model()
  {
    var n := |es| - 1;
    if k < n {
      assert es[..n][k] == es[k];
      EnumModelsAt(es[..n], k);
    }
  }

  lemma {:induction false} RecordModelsAt(rs: seq<FbsStructOrTable>, k: nat)
    requires k < |rs|
    ensures RecordModels(rs)[k] == rs[k].Model()
  {
    var n := |rs| - 1;
    if k < n {
      assert rs[..n][k] == rs[k];
      RecordModelsAt(rs[..n], k);
    }
  }

  lemma {:induction false} UnionModelsAt(us: seq<FbsUnion>, k: nat)
    requires k < |us|
    ensures UnionModels(us)[k] == us[k].Model()
  {
    var n := |us| - 1;
    if k < n {
      assert us[..n][k] == us[k];
      UnionModelsAt(us[..n], k);
    }
  }

  class FlatBufferSchema {
    var NamespaceName: string
    var FileLevelAttributes: seq<string>
    var Enums: seq<FbsEnum>
    var StructsOrTables: seq<FbsStructOrTable>
    var Unions: seq<FbsUnion>
    var RootType: Option<string>

    constructor ()
      ensures Model() == Document("", [], [], [], [], None)
    {
      NamespaceName := "";
      FileLevelAttributes := [];
      Enums := [];
      StructsOrTables := [];
      Unions := [];
      RootType := None;
    }

    /** The document the schema currently describes, read through every container it holds. */
    function Model(): Document
      reads this, Enums, StructsOrTables, Unions
    {
      Document(NamespaceName, FileLevelAttributes, EnumModels(Enums), RecordModels(StructsOrTables),
               UnionModels(Unions), RootType)
    }

    /** The `NamespaceName` property setter. */
    method SetNamespaceName(n: string)
      modifies this
      ensures NamespaceName == n && RootType == old(RootType) && FileLevelAttributes == old(FileLevelAttributes)
      ensures Enums == old(Enums) && StructsOrTables == old(StructsOrTables) && Unions == old(Unions)
      ensures Model() == old(Model()).(namespaceName := n)
    {
      NamespaceName := n;
    }

    /** The `RootType` property setter. */
    method SetRootType(r: Option<string>)
      modifies this
      ensures RootType == r && NamespaceName == old(NamespaceName) && FileLevelAttributes == old(FileLevelAttributes)
      ensures Enums == old(Enums) && StructsOrTables == old(StructsOrTables) && Unions == old(Unions)
      ensures Model() == old(Model()).(rootType := r)
    {
      RootType := r;
    }

    /** `FileLevelAttributes.Add(a)`. */
    method AddFileLevelAttribute(a: string)
      modifies this
      ensures FileLevelAttributes == old(FileLevelAttributes) + [a]
      ensures NamespaceName == old(NamespaceName) && RootType == old(RootType)
      ensures Enums == old(Enums) && StructsOrTables == old(StructsOrTables) && Unions == old(Unions)
      ensures Model() == old(Model()).(fileLevelAttributes := old(Model()).fileLevelAttributes + [a])
    {
      FileLevelAttributes := FileLevelAttributes + [a];
    }

    /** `Enums.Add(e)`. */
    method AddEnum(e: FbsEnum)
      modifies this
      ensures Enums == old(Enums) + [e]
      ensures NamespaceName == old(NamespaceName) && RootType == old(RootType)
      ensures FileLevelAttributes == old(FileLevelAttributes)
      ensures StructsOrTables == old(StructsOrTables) && Unions == old(Unions)
      ensures Model() == old(Model()).(enums := old(Model()).enums + [e.Model()])
    {
      Enums := Enums + [e];
      assert Enums[..|Enums| - 1] == old(Enums);
    }

    /** `StructsOrTables.Add(r)`. */
    method AddStructOrTable(r: FbsStructOrTable)
      modifies this
      ensures StructsOrTables == old(StructsOrTables) + [r]
      ensures NamespaceName == old(NamespaceName) && RootType == old(RootType)
      ensures FileLevelAttributes == old(FileLevelAttributes)
      ensures Enums == old(Enums) && Unions == old(Unions)
      ensures Model() == old(Model()).(records := old(Model()).records + [r.Model()])
    {
      StructsOrTables := StructsOrTables + [r];
      assert StructsOrTables[..|StructsOrTables| - 1] == old(StructsOrTables);
    }

    /** `Unions.Add(u)`. */
    method AddUnion(u: FbsUnion)
      modifies this
      ensures Unions == old(Unions) + [u]
      ensures NamespaceName == old(NamespaceName) && RootType == old(RootType)
      ensures FileLevelAttributes == old(FileLevelAttributes)
      ensures Enums == old(Enums) && StructsOrTables == old(StructsOrTables)
      ensures Model() == old(Model()).(unions := old(Model()).unions + [u.Model()])
    {
      Unions := Unions + [u];
      assert Unions[..|Unions| - 1] == old(Unions);
    }

    /** `en.ToFbsString()` for each enum, in list order. */
    method RenderEnums() returns (lines: seq<string>)
      ensures lines == EnumLines(EnumModels(Enums))
      ensures Model() == old(Model())
    {
      ghost var models := EnumModels(Enums);
      lines := [];
      for i := 0 to |Enums|
        invariant |lines| == i
        invariant forall j {:trigger lines[j]} :: 0 <= j < i ==> lines[j] == EnumText(models[j])
      {
        EnumModelsAt(Enums, i);
        var line := Enums[i].ToFbsString();
        lines := lines + [line];
      }
      EnumLinesPointwise(models, lines);
    }

    /** `st.ToFbsString()` for each struct or table, in list order. */
    method RenderStructsOrTables() returns (blocks: seq<string>)
      ensures blocks == RecordBlocks(RecordModels(StructsOrTables))
      ensures Model() == old(Model())
    {
      ghost var models := RecordModels(StructsOrTables);
      blocks := [];
      for i := 0 to |StructsOrTables|
        invariant |blocks| == i
        invariant forall j {:trigger blocks[j]} :: 0 <= j < i ==> blocks[j] == RecordText(models[j])
      {
        RecordModelsAt(StructsOrTables, i);
        var block := StructsOrTables[i].ToFbsString();
        blocks := blocks + [block];
      }
      RecordBlocksPointwise(models, blocks);
    }

    /** `union.ToFbsString()` for each union, in list order. */
    method RenderUnions() returns (lines: seq<string>)
      ensures lines == UnionLines(UnionModels(Unions))
      ensures Model() == old(Model())
    {
      ghost var models := UnionModels(Unions);
      lines := [];
      for i := 0 to |Unions|
        invariant |lines| == i
        invariant forall j {:trigger lines[j]} :: 0 <= j < i ==> lines[j] == UnionText(models[j])
      {
        UnionModelsAt(Unions, i);
        var line := Unions[i].ToFbsString();
        lines := lines + [line];
      }
      UnionLinesPointwise(models, lines);
    }

    /**
     * Renders every enum, struct or table and union first, then appends the
     * sections in their fixed order. Rendering an element changes nothing, so
     * doing it ahead of the appends yields the same text as rendering in place.
     */
    method ToFbsString() returns (s: string)
      ensures s == DocumentText(Model())
      ensures Model() == old(Model())
    {
      var enumLines := RenderEnums();
      var blocks := RenderStructsOrTables();
      var unionLines := RenderUnions();
      var raw := AppendSections(NamespaceName, FileLevelAttributes, enumLines, blocks, unionLines, RootType);
      s := TrimEnd(raw);
    }
  }

  /** The appends of `FlatBufferSchema.ToFbsString` once every element is rendered. */
  method AppendSections(namespaceName: string, attributes: seq<string>, enumLines: seq<string>,
                        blocks: seq<string>, unionLines: seq<string>, rootType: Option<string>)
    returns (raw: string)
    ensures raw == NamespaceText(namespaceName) + AttributesText(attributes) + Unlines(enumLines)
                   + Unlines(blocks) + Unlines(unionLines) + RootText(rootType)
  {
    raw := AppendNamespace("", namespaceName);
    assert raw == NamespaceText(namespaceName);
    raw := AppendAttributes(raw, attributes);
    raw := AppendEach(raw, enumLines);
    raw := AppendEach(raw, blocks);
    raw := AppendEach(raw, unionLines);
    raw := AppendRootType(raw, rootType);
  }

  /** Step 1: `namespace N;` and a blank line unless the namespace is null or whitespace. */
  method AppendNamespace(sb: string, namespaceName: string) returns (r: string)
    ensures r == sb + NamespaceText(namespaceName)
  {
    r := sb;
    if !IsNullOrWhiteSpace(namespaceName) {
      r := r + ("namespace " + namespaceName + ";" + "\n");
      r := r + "\n";
    }
  }

  /** Step 2: one `attribute "a";` line per attribute, then a blank line if there was any. */
  method AppendAttributes(sb: string, attributes: seq<string>) returns (r: string)
    ensures r == sb + AttributesText(attributes)
  {
    r := sb;
    for i := 0 to |attributes|
      invariant r == sb + Unlines(AttributeLines(attributes[..i]))
    {
      var line := "attribute \"" + attributes[i] + "\";";
      assert attributes[..i + 1][..i] == attributes[..i];
      AppendLine(sb, AttributeLines(attributes[..i]), line);
      r := r + (line + "\n");
    }
    assert attributes[..|attributes|] == attributes;
    if |attributes| > 0 {
      AppendAssoc(sb, Unlines(AttributeLines(attributes)), "\n");
      r := r + "\n";
    }
  }

  /** Step 6: `root_type R;` unless the root type is null or empty. */
  method AppendRootType(sb: string, rootType: Option<string>) returns (r: string)
    ensures r == sb + RootText(rootType)
  {
    r := sb;
    if rootType.Some? && rootType.value != "" {
      r := r + ("root_type " + rootType.value + ";" + "\n");
    }
  }

  /** `sb.AppendLine(x)` for each `x` in turn. */
  method AppendEach(sb: string, xs: seq<string>) returns (r: string)
    ensures r == sb + Unlines(xs)
  {
    r := sb;
    for i := 0 to |xs|
      invariant r == sb + Unlines(xs[..i])
    {
      assert xs[..i + 1][..i] == xs[..i];
      AppendLine(sb, xs[..i], xs[i]);
      r := r + (xs[i] + "\n");
    }
    assert xs[..|xs|] == xs;
  }
}
