/**
 * What `BuildSingleStructFbs` (FlatBufferSchemaGenerator.cs lines 382-459)
 * promises about the schema it assembles: the table mirrors the struct's fields,
 * `Vec3` is present exactly when a field needs it, and every enum a field names
 * is emitted once, with every value written out.
 */
module AssemblyProperties {
  import opened Wrappers
  import opened Text
  import opened SchemaModel
  import opened GeneratorTypes
  import opened Assembler

  // ------------------------------------------------------ the needed names

  /**
   * One field of the loop: its type joins the set exactly when some known enum is
   * named like it (`Any`) and no name equal to it ignoring case is in the set yet
   * (`HashSet.Add` under `OrdinalIgnoreCase`).
   */
  lemma NeededNamesStep(fields: seq<FieldInfo>, allEnums: seq<EnumInfo>)
    requires fields != []
    ensures var before := NeededEnumNames(fields[..|fields| - 1], allEnums);
            var t := fields[|fields| - 1].typeName;
            NeededEnumNames(fields, allEnums)
            == if (exists i :: 0 <= i < |allEnums| && EqualsIgnoreCase(allEnums[i].enumName, t))
                  && !(exists j :: 0 <= j < |before| && EqualsIgnoreCase(before[j], t))
               then before + [t] else before
  {
    var before := NeededEnumNames(fields[..|fields| - 1], allEnums);
    var t := fields[|fields| - 1].typeName;
    FirstMatchFirst(allEnums, t);
    MemberIgnoreCaseExists(before, t);
  }

  /** Every name in the set has a known enum: only names that match one are added. */
  lemma {:induction false} NeededNamesKnown(fields: seq<FieldInfo>, allEnums: seq<EnumInfo>)
    ensures forall i :: 0 <= i < |NeededEnumNames(fields, allEnums)| ==>
              FirstMatch(allEnums, NeededEnumNames(fields, allEnums)[i]).Some?
  {
    if fields != [] {
      var n := |fields| - 1;
      NeededNamesKnown(fields[..n], allEnums);
      var before := NeededEnumNames(fields[..n], allEnums);
      var after := NeededEnumNames(fields, allEnums);
      forall i | 0 <= i < |after|
        ensures FirstMatch(allEnums, after[i]).Some?
      {
        if i < |before| {
          assert after[i] == before[i];
        }
      }
    }
  }

  /** The set is case-insensitive: no two of its names are equal ignoring case. */
  lemma {:induction false} NeededNamesDistinct(fields: seq<FieldInfo>, allEnums: seq<EnumInfo>)
    ensures forall i, j :: 0 <= i < j < |NeededEnumNames(fields, allEnums)| ==>
              !EqualsIgnoreCase(NeededEnumNames(fields, allEnums)[i], NeededEnumNames(fields, allEnums)[j])
  {
    if fields != [] {
      var n := |fields| - 1;
      NeededNamesDistinct(fields[..n], allEnums);
      var before := NeededEnumNames(fields[..n], allEnums);
      var after := NeededEnumNames(fields, allEnums);
      var t := fields[n].typeName;
      if after != before {
        assert after == before + [t] && !MemberIgnoreCase(before, t);
        MemberIgnoreCaseExists(before, t);
        forall i, j | 0 <= i < j < |after|
          ensures !EqualsIgnoreCase(after[i], after[j])
        {
          assert after[i] == before[i];
          if j < |before| {
            assert after[j] == before[j];
          }
        }
      }
    }
  }

  /** Every name in the set is the type of some field, as that field wrote it. */
  lemma {:induction false} NeededNamesFromFields(fields: seq<FieldInfo>, allEnums: seq<EnumInfo>)
    ensures forall i :: 0 <= i < |NeededEnumNames(fields, allEnums)| ==>
              exists k :: 0 <= k < |fields| && NeededEnumNames(fields, allEnums)[i] == fields[k].typeName
  {
    if fields != [] {
      var n := |fields| - 1;
      NeededNamesFromFields(fields[..n], allEnums);
      var before := NeededEnumNames(fields[..n], allEnums);
      var after := NeededEnumNames(fields, allEnums);
      forall i | 0 <= i < |after|
        ensures exists k :: 0 <= k < |fields| && NeededEnumNames(fields, allEnums)[i] == fields[k].typeName
      {
        if i < |before| {
          var k :| 0 <= k < n && before[i] == fields[..n][k].typeName;
          assert after[i] == before[i] && fields[k] == fields[..n][k];
        } else {
          assert after[i] == fields[n].typeName;
        }
      }
      assert forall i :: 0 <= i < |NeededEnumNames(fields, allEnums)| ==>
              exists k :: 0 <= k < |fields| && NeededEnumNames(fields, allEnums)[i] == fields[k].typeName;
    } else {
      assert NeededEnumNames(fields, allEnums) == [];
    }
  }

  /** Every field type that names a known enum is in the set, possibly in another letter case. */
  lemma {:induction false} NeededNamesComplete(fields: seq<FieldInfo>, allEnums: seq<EnumInfo>)
    ensures forall k :: 0 <= k < |fields| && FirstMatch(allEnums, fields[k].typeName).Some? ==>
              exists i :: 0 <= i < |NeededEnumNames(fields, allEnums)|
                          && EqualsIgnoreCase(NeededEnumNames(fields, allEnums)[i], fields[k].typeName)
  {
    if fields != [] {
      var n := |fields| - 1;
      NeededNamesComplete(fields[..n], allEnums);
      var before := NeededEnumNames(fields[..n], allEnums);
      var after := NeededEnumNames(fields, allEnums);
      var t := fields[n].typeName;
      MemberIgnoreCaseExists(before, t);
      forall k | 0 <= k < |fields| && FirstMatch(allEnums, fields[k].typeName).Some?
        ensures exists i :: 0 <= i < |NeededEnumNames(fields, allEnums)|
                            && EqualsIgnoreCase(NeededEnumNames(fields, allEnums)[i], fields[k].typeName)
      {
        if k < n {
          assert fields[..n][k] == fields[k];
          var i :| 0 <= i < |before| && EqualsIgnoreCase(before[i], fields[k].typeName);
          assert after[i] == before[i];
        } else if MemberIgnoreCase(before, t) {
          var i :| 0 <= i < |before| && EqualsIgnoreCase(before[i], t);
          assert after[i] == before[i];
        } else {
          assert after[|before|] == t;
          assert EqualsIgnoreCase(after[|before|], fields[k].typeName);
        }
      }
      assert forall k :: 0 <= k < |fields| && FirstMatch(allEnums, fields[k].typeName).Some? ==>
              exists i :: 0 <= i < |NeededEnumNames(fields, allEnums)|
                          && EqualsIgnoreCase(NeededEnumNames(fields, allEnums)[i], fields[k].typeName);
    }
  }

  // ------------------------------------------------------ the enum records

  /** When every name has a match, the enums are one per name, in name order. */
  lemma {:induction false} NeededEnumDeclsAt(names: seq<string>, allEnums: seq<EnumInfo>, i: nat)
    requires forall j :: 0 <= j < |names| ==> FirstMatch(allEnums, names[j]).Some?
    requires i < |names|
    ensures |NeededEnumDecls(names, allEnums)| == |names|
    ensures NeededEnumDecls(names, allEnums)[i] == EnumDeclOf(FirstMatch(allEnums, names[i]).value)
  {
    var n := |names| - 1;
    assert forall j :: 0 <= j < n ==> names[..n][j] == names[j];
    if i < n {
      NeededEnumDeclsAt(names[..n], allEnums, i);
    } else if n > 0 {
      NeededEnumDeclsAt(names[..n], allEnums, n - 1);
    } else {
      assert names[..n] == [];
    }
  }

  /** An emitted enum keeps the source enum's name, type and enumerators, each with its value written out. */
  lemma EnumDeclOfValues(e: EnumInfo)
    ensures EnumDeclOf(e).name == e.enumName && EnumDeclOf(e).underlyingType == e.underlyingType
    ensures |EnumDeclOf(e).values| == |e.enumerants|
    ensures forall k :: 0 <= k < |e.enumerants| ==>
              EnumDeclOf(e).values[k] == EnumValue(e.enumerants[k].name, Some(e.enumerants[k].value))
  {
    forall k | 0 <= k < |e.enumerants|
      ensures EnumDeclOf(e).values[k] == EnumValue(e.enumerants[k].name, Some(e.enumerants[k].value))
    {
      ExplicitValuesAt(e.enumerants, k);
    }
  }

  // ------------------------------------------------------- the whole schema

  /**
   * The schema's fixed parts: namespace `Ns.Struct`, the single file attribute
   * `priority`, no unions, the struct as root type, and the struct's table last,
   * holding one field per struct field with its name, type, default and
   * attributes, in field order.
   */
  lemma AssembledTable(info: StructInfo, allEnums: seq<EnumInfo>)
    ensures var d := AssembleDocument(info, allEnums);
            && d.namespaceName == info.namespaceName + "." + info.structName
            && d.fileLevelAttributes == ["priority"] && d.unions == [] && d.rootType == Some(info.structName)
            && |d.records| >= 1
            && var table := d.records[|d.records| - 1];
               && table.name == info.structName && table.isTable && |table.fields| == |info.fields|
               && forall k :: 0 <= k < |info.fields| ==>
                    table.fields[k] == Field(info.fields[k].name, info.fields[k].typeName,
                                             info.fields[k].defaultValue, info.fields[k].extraAttributes)
  {
    forall k | 0 <= k < |info.fields|
      ensures FieldsOf(info.fields)[k] == FieldOf(info.fields[k])
    {
      FieldsOfAt(info.fields, k);
    }
  }

  /** `Vec3` is emitted exactly when some field's type is `Vec3` in any letter case, and then before the table. */
  lemma AssembledVec3(info: StructInfo, allEnums: seq<EnumInfo>)
    ensures var d := AssembleDocument(info, allEnums);
            && (Vec3Decl in d.records
                <==> exists k :: 0 <= k < |info.fields| && EqualsIgnoreCase(info.fields[k].typeName, "Vec3"))
            && (Vec3Decl in d.records ==> d.records == [Vec3Decl, TableOf(info)])
            && (Vec3Decl !in d.records ==> d.records == [TableOf(info)])
  {
    UsesVec3Exists(info.fields);
    assert TableOf(info) != Vec3Decl;
  }

  /** Every field type naming a known enum brings that enum (its first match ignoring case) into the schema. */
  lemma AssembledEnumsCoverFields(info: StructInfo, allEnums: seq<EnumInfo>)
    ensures forall k :: 0 <= k < |info.fields| && FirstMatch(allEnums, info.fields[k].typeName).Some? ==>
              EnumDeclOf(FirstMatch(allEnums, info.fields[k].typeName).value) in AssembleDocument(info, allEnums).enums
  {
    var names := NeededEnumNames(info.fields, allEnums);
    var enums := AssembleDocument(info, allEnums).enums;
    NeededNamesKnown(info.fields, allEnums);
    NeededNamesComplete(info.fields, allEnums);
    forall k | 0 <= k < |info.fields| && FirstMatch(allEnums, info.fields[k].typeName).Some?
      ensures EnumDeclOf(FirstMatch(allEnums, info.fields[k].typeName).value) in enums
    {
      var t := info.fields[k].typeName;
      var i :| 0 <= i < |names| && EqualsIgnoreCase(names[i], t);
      FirstMatchIgnoresCase(allEnums, names[i], t);
      NeededEnumDeclsAt(names, allEnums, i);
      assert enums[i] == EnumDeclOf(FirstMatch(allEnums, t).value);
    }
  }

  /** Every enum in the schema is the first match of some field's type; nothing else is emitted. */
  lemma AssembledEnumsFromFields(info: StructInfo, allEnums: seq<EnumInfo>)
    ensures forall e :: e in AssembleDocument(info, allEnums).enums ==>
              exists k :: 0 <= k < |info.fields| && FirstMatch(allEnums, info.fields[k].typeName).Some?
                          && e == EnumDeclOf(FirstMatch(allEnums, info.fields[k].typeName).value)
  {
    var names := NeededEnumNames(info.fields, allEnums);
    var enums := AssembleDocument(info, allEnums).enums;
    NeededNamesKnown(info.fields, allEnums);
    NeededNamesFromFields(info.fields, allEnums);
    forall e | e in enums
      ensures exists k :: 0 <= k < |info.fields| && FirstMatch(allEnums, info.fields[k].typeName).Some?
                          && e == EnumDeclOf(FirstMatch(allEnums, info.fields[k].typeName).value)
    {
      NeededEnumDeclsAt(names, allEnums, 0);
      var i :| 0 <= i < |enums| && enums[i] == e;
      NeededEnumDeclsAt(names, allEnums, i);
      var k :| 0 <= k < |info.fields| && names[i] == info.fields[k].typeName;
      assert FirstMatch(allEnums, info.fields[k].typeName).Some?;
    }
  }

  /** No enum is emitted twice: the emitted enum names differ pairwise, even ignoring case. */
  lemma AssembledEnumsDistinct(info: StructInfo, allEnums: seq<EnumInfo>)
    ensures forall i, j :: 0 <= i < j < |AssembleDocument(info, allEnums).enums| ==>
              !EqualsIgnoreCase(AssembleDocument(info, allEnums).enums[i].name,
                                AssembleDocument(info, allEnums).enums[j].name)
  {
    var names := NeededEnumNames(info.fields, allEnums);
    var enums := AssembleDocument(info, allEnums).enums;
    NeededNamesKnown(info.fields, allEnums);
    NeededNamesDistinct(info.fields, allEnums);
    forall i, j | 0 <= i < j < |enums|
      ensures !EqualsIgnoreCase(enums[i].name, enums[j].name)
    {
      NeededEnumDeclsAt(names, allEnums, i);
      NeededEnumDeclsAt(names, allEnums, j);
    }
  }

  /** Every enumerator of every emitted enum carries its value explicitly. */
  lemma AssembledEnumsExplicit(info: StructInfo, allEnums: seq<EnumInfo>)
    ensures forall e :: e in AssembleDocument(info, allEnums).enums ==>
              forall k :: 0 <= k < |e.values| ==> e.values[k].explicitValue.Some?
  {
    AssembledEnumsFromFields(info, allEnums);
    forall e | e in AssembleDocument(info, allEnums).enums
      ensures forall k :: 0 <= k < |e.values| ==> e.values[k].explicitValue.Some?
    {
      var k :| 0 <= k < |info.fields| && FirstMatch(allEnums, info.fields[k].typeName).Some?
               && e == EnumDeclOf(FirstMatch(allEnums, info.fields[k].typeName).value);
      EnumDeclOfValues(FirstMatch(allEnums, info.fields[k].typeName).value);
    }
  }

  /** The assembled namespace `Ns.Struct` is never blank: it holds the dot. */
  lemma AssembledNamespace(info: StructInfo, allEnums: seq<EnumInfo>)
    ensures AssembleDocument(info, allEnums).namespaceName == info.namespaceName + "." + info.structName
    ensures !IsNullOrWhiteSpace(AssembleDocument(info, allEnums).namespaceName)
  {
    var ns := info.namespaceName + "." + info.structName;
    assert ns[|info.namespaceName|] == '.';
  }

  /** The text opens with `namespace Ns.Struct;`. */
  lemma AssembledTextStart(info: StructInfo, allEnums: seq<EnumInfo>)
    ensures "namespace " + (info.namespaceName + "." + info.structName) + ";"
            <= DocumentText(AssembleDocument(info, allEnums))
  {
    AssembledNamespace(info, allEnums);
    DocumentStartsWithNamespace(AssembleDocument(info, allEnums));
  }

  /** For a named struct the text closes with `root_type Struct;`. */
  lemma AssembledTextEnd(info: StructInfo, allEnums: seq<EnumInfo>)
    requires info.structName != ""
    ensures EndsWith(DocumentText(AssembleDocument(info, allEnums)), "root_type " + info.structName + ";")
  {
    DocumentEndsWithRootType(AssembleDocument(info, allEnums));
  }
}
