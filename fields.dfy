/**
 * Field construction (FlatBufferSchemaGenerator.cs lines 112-150 and 251-287):
 * each reflected property of a script struct becomes one `FlatBufferFieldInfo`.
 */
module FieldExtraction {
  import opened Wrappers
  import opened Text
  import opened GeneratorTypes
  import opened TypeMapper

  const DefaultKey := "FlatBufferDefault"
  const DeprecatedKey := "Deprecated"
  const PriorityKey := "Priority"

  /** `TryGetDefaultValue`: the `FlatBufferDefault` metadata value, returned as it is. */
  function TryGetDefaultValue(p: Property): (r: Option<string>)
    ensures r.Some? <==> DefaultKey in p.metaData
    ensures r.Some? ==> r.value == p.metaData[DefaultKey] && r.value in p.metaData.Values
  {
    if DefaultKey in p.metaData then Some(p.metaData[DefaultKey]) else None
  }

  /** The attribute terms in the order they are collected: `deprecated`, then `priority: V`. */
  function AttributeTerms(metaData: map<string, string>): seq<string>
  {
    (if DeprecatedKey in metaData then ["deprecated"] else [])
    + (if PriorityKey in metaData then ["priority: " + metaData[PriorityKey]] else [])
  }

  lemma AttributeTermsCases(metaData: map<string, string>)
    ensures DeprecatedKey in metaData && PriorityKey !in metaData ==> AttributeTerms(metaData) == ["deprecated"]
    ensures DeprecatedKey !in metaData && PriorityKey in metaData ==>
              AttributeTerms(metaData) == ["priority: " + metaData[PriorityKey]]
    ensures DeprecatedKey in metaData && PriorityKey in metaData ==>
              AttributeTerms(metaData) == ["deprecated", "priority: " + metaData[PriorityKey]]
    ensures DeprecatedKey !in metaData && PriorityKey !in metaData ==> AttributeTerms(metaData) == []
    ensures DeprecatedKey in metaData || PriorityKey in metaData ==> |metaData| > 0
  {
    if DeprecatedKey in metaData || PriorityKey in metaData {
      assert metaData.Keys != {};
    }
  }

  /** The value `TryGetExtraAttributes` returns. */
  function ExtraAttributesOf(metaData: map<string, string>): (r: Option<string>)
    ensures r.None? <==> DeprecatedKey !in metaData && PriorityKey !in metaData
    ensures r.Some? ==> |r.value| > 2 && r.value[0] == '(' && r.value[|r.value| - 1] == ')'
  {
    var terms := AttributeTerms(metaData);
    AttributeTermsCases(metaData);
    assert |terms| > 0 ==> |Join(terms, ", ")| > 0 by {
      if |terms| > 0 { JoinShort(terms, ", "); }
    }
    if |metaData| == 0 || |terms| == 0 then None else Some("(" + Join(terms, ", ") + ")")
  }

  /**
   * No attributes when the metadata is empty or holds neither key; otherwise
   * `deprecated` before `priority: V`, in parentheses, and never `()`.
   */
  lemma ExtraAttributesCases(metaData: map<string, string>)
    ensures ExtraAttributesOf(metaData).None? <==> DeprecatedKey !in metaData && PriorityKey !in metaData
    ensures ExtraAttributesOf(metaData) != Some("()")
    ensures DeprecatedKey in metaData && PriorityKey !in metaData ==>
              ExtraAttributesOf(metaData) == Some("(" + "deprecated" + ")")
    ensures DeprecatedKey !in metaData && PriorityKey in metaData ==>
              ExtraAttributesOf(metaData) == Some("(" + "priority: " + metaData[PriorityKey] + ")")
    ensures DeprecatedKey in metaData && PriorityKey in metaData ==>
              ExtraAttributesOf(metaData) == Some("(" + "deprecated" + ", " + "priority: " + metaData[PriorityKey] + ")")
  {
    var terms := AttributeTerms(metaData);
    AttributeTermsCases(metaData);
    if DeprecatedKey in metaData && PriorityKey in metaData {
      var v := metaData[PriorityKey];
      JoinShort(terms, ", ");
      assert "(" + Join(terms, ", ") + ")" == "(" + "deprecated" + ", " + "priority: " + v + ")";
    } else if DeprecatedKey in metaData {
      JoinShort(terms, ", ");
      assert "(" + Join(terms, ", ") + ")" == "(" + "deprecated" + ")";
    } else if PriorityKey in metaData {
      var v := metaData[PriorityKey];
      JoinShort(terms, ", ");
      assert "(" + Join(terms, ", ") + ")" == "(" + "priority: " + v + ")";
    }
  }

  /** `TryGetExtraAttributes`: collects the terms into a list, then wraps them. */
  method TryGetExtraAttributes(metaData: map<string, string>) returns (r: Option<string>)
    ensures r == ExtraAttributesOf(metaData)
  {
    if |metaData| == 0 {
      return None;
    }
    var attributes: seq<string> := [];
    if DeprecatedKey in metaData {
      attributes := attributes + ["deprecated"];
    }
    if PriorityKey in metaData {
      attributes := attributes + ["priority: " + metaData[PriorityKey]];
    }
    if |attributes| == 0 {
      return None;
    }
    r := Some("(" + Join(attributes, ", ") + ")");
  }

  /** The field type: the reported enum name for an enum property, the mapped type otherwise. */
  function FieldType(p: Property): (r: string)
    ensures p.kind.EnumProperty? ==> r == (if p.kind.enumSourceName.Some? then p.kind.enumSourceName.value else "int")
    ensures !p.kind.EnumProperty? ==> IsSchemaType(r)
  {
    var m := MapToFlatBufferType(p);
    MappedIsSchemaType(p);
    assert p.kind.EnumProperty? ==> m.isEnum && m.enumName == Some(if p.kind.enumSourceName.Some? then p.kind.enumSourceName.value else "int") by {
      if p.kind.EnumProperty? { EnumReported(p); }
    }
    if m.isEnum && m.enumName.Some? then m.enumName.value else m.typeName
  }

  /** The field one property yields. */
  function FieldFromProperty(p: Property): (f: FieldInfo)
    ensures |f.name| == |p.sourceName| && EqualsIgnoreCase(f.name, p.sourceName)
    ensures f.defaultValue.Some? <==> DefaultKey in p.metaData
    ensures f.extraAttributes.None? <==> DeprecatedKey !in p.metaData && PriorityKey !in p.metaData
  {
    LowerLetters(p.sourceName);
    LowerIdempotent(p.sourceName);
    FieldInfo(Lower(p.sourceName), FieldType(p), TryGetDefaultValue(p), ExtraAttributesOf(p.metaData))
  }

  /** An enum property is typed by its enum's name (or `int`); any other by the mapped type. */
  lemma EnumFieldType(p: Property)
    ensures p.kind.EnumProperty? ==>
              FieldType(p) == (if p.kind.enumSourceName.Some? then p.kind.enumSourceName.value else "int")
    ensures !p.kind.EnumProperty? ==> FieldType(p) == MapToFlatBufferType(p).typeName
  {
    if p.kind.EnumProperty? {
      EnumReported(p);
    }
  }

  /**
   * The field name is the property name in lower case: same length, no capital
   * letters, equal to it ignoring case, and unchanged when lower-cased again.
   */
  lemma FieldNameLowered(p: Property)
    ensures var n := FieldFromProperty(p).name;
            |n| == |p.sourceName| && (forall i :: 0 <= i < |n| ==> !IsUpper(n[i]))
            && EqualsIgnoreCase(n, p.sourceName) && Lower(n) == n
  {
    LowerLetters(p.sourceName);
    LowerIdempotent(p.sourceName);
  }

  /**
   * Defaults and attributes come from the metadata alone: two properties with the
   * same metadata get the same default and attributes whatever their name or kind,
   * and without `FlatBufferDefault` there is no default.
   */
  lemma DefaultsFromMetadataOnly(p: Property, q: Property)
    requires p.metaData == q.metaData
    ensures FieldFromProperty(p).defaultValue == FieldFromProperty(q).defaultValue
    ensures FieldFromProperty(p).extraAttributes == FieldFromProperty(q).extraAttributes
    ensures FieldFromProperty(p).defaultValue.Some? <==> DefaultKey in p.metaData
  {
  }

  /**
   * `ExtractStructFields`: one field per property of a script struct, in declaration
   * order; any other type has no fields.
   */
  method ExtractStructFields(t: UhtType) returns (fields: seq<FieldInfo>)
    ensures !t.kind.ScriptStruct? ==> fields == []
    ensures t.kind.ScriptStruct? ==> |fields| == |t.kind.properties|
    ensures t.kind.ScriptStruct? ==>
              forall k :: 0 <= k < |fields| ==> fields[k] == FieldFromProperty(t.kind.properties[k])
  {
    fields := [];
    if t.kind.ScriptStruct? {
      var properties := t.kind.properties;
      for i := 0 to |properties|
        invariant |fields| == i
        invariant forall k :: 0 <= k < i ==> fields[k] == FieldFromProperty(properties[k])
      {
        var property := properties[i];
        var mapped := MapToFlatBufferType(property);
        var fieldType := mapped.typeName;
        if mapped.isEnum && mapped.enumName.Some? {
          fieldType := mapped.enumName.value;
        }
        var defaultValue := TryGetDefaultValue(property);
        var extraAttributes := TryGetExtraAttributes(property.metaData);
        var finalFieldName := Lower(property.sourceName);
        fields := fields + [FieldInfo(finalFieldName, fieldType, defaultValue, extraAttributes)];
      }
    }
  }

  // The sample `FCheckFlatBuffer` struct of the game module: its reflected
  // properties `Mana` and `HP` (with defaults), `Name`, the byte array
  // `Inventory` and the enum-typed `ChType`, and the fields they become.

  lemma SampleManaField()
    ensures FieldFromProperty(Property("Mana", IntProperty, map[DefaultKey := "150"]))
            == FieldInfo("mana", "int", Some("150"), None)
  {
    assert Lower("Mana") == "mana";
  }

  lemma SampleHpField()
    ensures FieldFromProperty(Property("HP", IntProperty, map[DefaultKey := "100"]))
            == FieldInfo("hp", "int", Some("100"), None)
  {
    assert Lower("HP") == "hp";
  }

  lemma SampleNameField()
    ensures FieldFromProperty(Property("Name", StrProperty, map[])) == FieldInfo("name", "string", None, None)
  {
    assert Lower("Name") == "name";
  }

  lemma SampleInventoryField()
    ensures FieldFromProperty(Property("Inventory", ArrayProperty(Some(Property("Inventory", ByteProperty, map[]))), map[]))
            == FieldInfo("inventory", "[ubyte]", None, None)
  {
    assert Lower("Inventory") == "inventory";
  }

  lemma SampleEnumField()
    ensures FieldFromProperty(Property("ChType", EnumProperty(Some("ECharacterType")), map[]))
            == FieldInfo("chtype", "ECharacterType", None, None)
  {
    assert Lower("ChType") == "chtype";
  }
}
