/**
 * The value of a FlatBuffers schema document (`FlatBufferSchema` and its parts)
 * and the text each part renders to. Lists of rendered parts are built from the
 * back, the way the source appends to a `List` or a `StringBuilder`.
 */
module SchemaModel {
  import opened Wrappers
  import opened Text

  /** C# `long`. */
  type Long = x: int | -0x8000_0000_0000_0000 <= x < 0x8000_0000_0000_0000

  /** `FbsEnumValue`: a name and an optional explicit value, absent unless given. */
  datatype EnumValue = EnumValue(name: string, explicitValue: Option<Long> := None)

  /** `FbsField`: the type is already a schema type expression such as `int`, `[ubyte]` or `Vec3`. */
  datatype Field = Field(name: string, typeName: string, defaultValue: Option<string>, extraAttributes: Option<string>)

  /** The contents of an `FbsEnum`. */
  datatype EnumDecl = EnumDecl(name: string, underlyingType: string, values: seq<EnumValue>)

  /** The contents of an `FbsStructOrTable`. */
  datatype RecordDecl = RecordDecl(name: string, isTable: bool, fields: seq<Field>)

  /** The contents of an `FbsUnion`. */
  datatype UnionDecl = UnionDecl(name: string, types: seq<string>)

  /** The contents of a `FlatBufferSchema`; a null `RootType` is `None`. */
  datatype Document = Document(
    namespaceName: string,
    fileLevelAttributes: seq<string>,
    enums: seq<EnumDecl>,
    records: seq<RecordDecl>,
    unions: seq<UnionDecl>,
    rootType: Option<string>)

  // ------------------------------------------------------------------ fields

  /** `FbsField.ToFbsString`: `name: type`, then ` = default` and ` attrs` when non-empty, then `;`. */
  function FieldText(f: Field): (r: string)
    ensures f.name + ": " + f.typeName <= r && EndsWith(r, ";")
  {
    var head := f.name + ": " + f.typeName;
    var withDefault := if NonEmpty(f.defaultValue) then head + " = " + f.defaultValue.value else head;
    var withAttributes := if NonEmpty(f.extraAttributes) then withDefault + " " + f.extraAttributes.value else withDefault;
    withAttributes + ";"
  }

  /**
   * A field line starts with `name: type`, ends with `;`, carries ` = default`
   * right after the type when a default is given and ends with ` attrs;` when
   * attributes are given; its exact text is given for each of the four cases.
   */
  lemma FieldTextShape(f: Field)
    ensures f.name + ": " + f.typeName <= FieldText(f)
    ensures FieldText(f)[|FieldText(f)| - 1] == ';'
    ensures NonEmpty(f.defaultValue) ==> f.name + ": " + f.typeName + " = " + f.defaultValue.value <= FieldText(f)
    ensures NonEmpty(f.extraAttributes) ==> EndsWith(FieldText(f), " " + f.extraAttributes.value + ";")
    ensures !NonEmpty(f.defaultValue) && !NonEmpty(f.extraAttributes) ==> FieldText(f) == f.name + ": " + f.typeName + ";"
    ensures !NonEmpty(f.defaultValue) && NonEmpty(f.extraAttributes) ==>
              FieldText(f) == f.name + ": " + f.typeName + " " + f.extraAttributes.value + ";"
    ensures NonEmpty(f.defaultValue) && !NonEmpty(f.extraAttributes) ==>
              FieldText(f) == f.name + ": " + f.typeName + " = " + f.defaultValue.value + ";"
    ensures NonEmpty(f.defaultValue) && NonEmpty(f.extraAttributes) ==>
              FieldText(f) == f.name + ": " + f.typeName + " = " + f.defaultValue.value + " " + f.extraAttributes.value + ";"
  {
  }

  /** An empty default or attribute string renders exactly as an absent one. */
  lemma EmptyOptionalsVanish(f: Field)
    ensures FieldText(f.(defaultValue := Some(""))) == FieldText(f.(defaultValue := None))
    ensures FieldText(f.(extraAttributes := Some(""))) == FieldText(f.(extraAttributes := None))
  {
  }

  // ------------------------------------------------------------------- enums

  /** One enumerator: `Name = V` when a value was given, the bare `Name` otherwise. */
  function EnumItemText(v: EnumValue): string
  {
    if v.explicitValue.Some? then v.name + " = " + DecimalText(v.explicitValue.value) else v.name
  }

  /** The enumerator texts, in list order. */
  function EnumItems(values: seq<EnumValue>): (items: seq<string>)
    ensures |items| == |values|
  {
    if values == [] then [] else EnumItems(values[..|values| - 1]) + [EnumItemText(values[|values| - 1])]
  }

  lemma {:induction false} EnumItemsAt(values: seq<EnumValue>, k: nat)
    requires k < |values|
    ensures EnumItems(values)[k] == EnumItemText(values[k])
  {
    var n := |values| - 1;
    if k < n {
      assert values[..n][k] == values[k];
      EnumItemsAt(values[..n], k);
    }
  }

  /** `FbsEnum.ToFbsString`: all enumerators on one line, joined by ", " in list order. */
  function EnumText(e: EnumDecl): (r: string)
    ensures "enum " + e.name + " : " + e.underlyingType + " { " <= r && EndsWith(r, " }")
  {
    "enum " + e.name + " : " + e.underlyingType + " { " + Join(EnumItems(e.values), ", ") + " }"
  }

  /** An enumerator with a newline-free name renders without a newline: a value adds only digits and a sign. */
  lemma EnumItemSingleLine(v: EnumValue)
    requires '\n' !in v.name
    ensures '\n' !in EnumItemText(v)
  {
    if v.explicitValue.Some? {
      var digits := DecimalText(v.explicitValue.value);
      assert '\n' !in digits by {
        forall i | 0 <= i < |digits| ensures digits[i] != '\n' {
          assert IsDigit(digits[i]) || digits[i] == '-';
        }
      }
      assert '\n' !in " = ";
    }
  }

  /** With newline-free names and underlying type, an enum renders on a single line. */
  lemma EnumTextSingleLine(e: EnumDecl)
    requires '\n' !in e.name && '\n' !in e.underlyingType
    requires forall k :: 0 <= k < |e.values| ==> '\n' !in e.values[k].name
    ensures '\n' !in EnumText(e)
  {
    var items := EnumItems(e.values);
    forall k | 0 <= k < |items|
      ensures '\n' !in items[k]
    {
      EnumItemsAt(e.values, k);
      EnumItemSingleLine(e.values[k]);
    }
    assert '\n' !in ", ";
    JoinSingleLine(items, ", ");
    assert '\n' !in "enum " && '\n' !in " : " && '\n' !in " { " && '\n' !in " }";
  }


  /** A value built without an explicit value renders as its bare name. */
  lemma BareEnumValue(name: string)
    ensures EnumValue(name).explicitValue == None
    ensures EnumItemText(EnumValue(name)) == name
  {
  }

  /** An explicit value renders as `Name = V`, and V reads back as the value. */
  lemma ExplicitEnumValue(name: string, value: Long)
    ensures exists digits :: EnumItemText(EnumValue(name, Some(value))) == name + " = " + digits
                             && IsDecimal(digits) && ParseDecimal(digits) == value
  {
    DecimalRoundTrip(value);
    assert EnumItemText(EnumValue(name, Some(value))) == name + " = " + DecimalText(value);
  }

  /**
   * The enum line is `enum N : T { ... }` and, when no enumerator name contains a
   * comma, splitting its body on ", " gives back the enumerators in list order.
   */
  lemma {:induction false} EnumItemsInOrder(e: EnumDecl)
    requires |e.values| >= 1
    requires forall k :: 0 <= k < |e.values| ==> ',' !in e.values[k].name
    ensures exists body ::
              && EnumText(e) == "enum " + e.name + " : " + e.underlyingType + " { " + body + " }"
              && Split(body, ", ") == EnumItems(e.values)
  {
    var items := EnumItems(e.values);
    forall k | 0 <= k < |items|
      ensures ',' !in items[k]
    {
      var v := e.values[k];
      EnumItemsAt(e.values, k);
      if v.explicitValue.Some? {
        var t := DecimalText(v.explicitValue.value);
        assert ',' !in t;
        assert items[k] == v.name + " = " + t;
      }
    }
    SplitJoin(items, ", ");
  }

  // ----------------------------------------------------------------- records

  function RecordHeader(r: RecordDecl): string
  {
    (if r.isTable then "table" else "struct") + " " + r.name + " {"
  }

  /** The field lines of a record block, each indented by two spaces, in list order. */
  function FieldLines(fields: seq<Field>): (lines: seq<string>)
    ensures |lines| == |fields|
  {
    if fields == [] then [] else FieldLines(fields[..|fields| - 1]) + ["  " + FieldText(fields[|fields| - 1])]
  }

  lemma {:induction false} FieldLinesAt(fields: seq<Field>, k: nat)
    requires k < |fields|
    ensures FieldLines(fields)[k] == "  " + FieldText(fields[k])
  {
    var n := |fields| - 1;
    if k < n {
      assert fields[..n][k] == fields[k];
      FieldLinesAt(fields[..n], k);
    }
  }

  /** `FbsStructOrTable.ToFbsString`: a header line, one indented line per field, and `}` without a newline. */
  function RecordText(r: RecordDecl): (t: string)
    ensures RecordHeader(r) + "\n" <= t && EndsWith(t, "}")
  {
    RecordHeader(r) + "\n" + Unlines(FieldLines(r.fields)) + "}"
  }

  /** The physical lines of a record block once the document appends it with a newline. */
  function RecordLines(r: RecordDecl): (lines: seq<string>)
    ensures |lines| == |r.fields| + 2
    ensures lines[0] == RecordHeader(r) && lines[|lines| - 1] == "}"
  {
    [RecordHeader(r)] + FieldLines(r.fields) + ["}"]
  }

  /** A record block followed by a newline is exactly its header, field and closing lines. */
  lemma RecordTextLines(r: RecordDecl)
    ensures RecordText(r) + "\n" == Unlines(RecordLines(r))
    ensures forall k :: 0 <= k < |r.fields| ==> RecordLines(r)[k + 1] == "  " + FieldText(r.fields[k])
  {
    var header, fields := [RecordHeader(r)], FieldLines(r.fields);
    UnlinesAppend(header, fields);
    UnlinesAppend(header + fields, ["}"]);
    forall k | 0 <= k < |r.fields|
      ensures RecordLines(r)[k + 1] == "  " + FieldText(r.fields[k])
    {
      FieldLinesAt(r.fields, k);
    }
  }

  // ------------------------------------------------------------------ unions

  /** `FbsUnion.ToFbsString`: `union N { A, B, C }`, members in list order. */
  function UnionText(u: UnionDecl): (r: string)
    ensures "union " + u.name + " { " <= r && EndsWith(r, " }")
  {
    "union " + u.name + " { " + Join(u.types, ", ") + " }"
  }

  /** When no member name contains a comma, the members are read back in list order. */
  lemma UnionMembersInOrder(u: UnionDecl)
    requires |u.types| >= 1
    requires forall k :: 0 <= k < |u.types| ==> ',' !in u.types[k]
    ensures exists body ::
              && UnionText(u) == "union " + u.name + " { " + body + " }"
              && Split(body, ", ") == u.types
  {
    SplitJoin(u.types, ", ");
  }

  // ---------------------------------------------------------------- document

  /** `namespace N;` and a blank line, unless the namespace is null or whitespace. */
  function NamespaceText(ns: string): string
  {
    if IsNullOrWhiteSpace(ns) then "" else "namespace " + ns + ";" + "\n" + "\n"
  }

  function AttributeLine(a: string): string
  {
    "attribute \"" + a + "\";"
  }

  function AttributeLines(attributes: seq<string>): (lines: seq<string>)
    ensures |lines| == |attributes|
  {
    if attributes == [] then []
    else AttributeLines(attributes[..|attributes| - 1]) + [AttributeLine(attributes[|attributes| - 1])]
  }

  /** One `attribute "a";` line per attribute, then a blank line if there was any. */
  function AttributesText(attributes: seq<string>): string
  {
    Unlines(AttributeLines(attributes)) + (if |attributes| > 0 then "\n" else "")
  }

  /** One line per enum, in list order. */
  function EnumLines(enums: seq<EnumDecl>): (lines: seq<string>)
    ensures |lines| == |enums|
  {
    if enums == [] then [] else EnumLines(enums[..|enums| - 1]) + [EnumText(enums[|enums| - 1])]
  }

  /** One block per struct or table, in list order. */
  function RecordBlocks(records: seq<RecordDecl>): (blocks: seq<string>)
    ensures |blocks| == |records|
  {
    if records == [] then [] else RecordBlocks(records[..|records| - 1]) + [RecordText(records[|records| - 1])]
  }

  /** One line per union, in list order. */
  function UnionLines(unions: seq<UnionDecl>): (lines: seq<string>)
    ensures |lines| == |unions|
  {
    if unions == [] then [] else UnionLines(unions[..|unions| - 1]) + [UnionText(unions[|unions| - 1])]
  }

  lemma {:induction false} EnumLinesAt(enums: seq<EnumDecl>, k: nat)
    requires k < |enums|
    ensures EnumLines(enums)[k] == EnumText(enums[k])
  {
    var n := |enums| - 1;
    if k < n {
      assert enums[..n][k] == enums[k];
      EnumLinesAt(enums[..n], k);
    }
  }

  /** Rendering element by element, in order, gives `EnumLines`. */
  lemma EnumLinesPointwise(enums: seq<EnumDecl>, rendered: seq<string>)
    requires |rendered| == |enums|
    requires forall j {:trigger rendered[j]} :: 0 <= j < |enums| ==> rendered[j] == EnumText(enums[j])
    ensures rendered == EnumLines(enums)
  {
    forall j | 0 <= j < |enums|
      ensures rendered[j] == EnumLines(enums)[j]
    {
      EnumLinesAt(enums, j);
    }
  }

  lemma {:induction false} RecordBlocksAt(records: seq<RecordDecl>, k: nat)
    requires k < |records|
    ensures RecordBlocks(records)[k] == RecordText(records[k])
  {
    var n := |records| - 1;
    if k < n {
      assert records[..n][k] == records[k];
      RecordBlocksAt(records[..n], k);
    }
  }

  /** Rendering element by element, in order, gives `RecordBlocks`. */
  lemma RecordBlocksPointwise(records: seq<RecordDecl>, rendered: seq<string>)
    requires |rendered| == |records|
    requires forall j {:trigger rendered[j]} :: 0 <= j < |records| ==> rendered[j] == RecordText(records[j])
    ensures rendered == RecordBlocks(records)
  {
    forall j | 0 <= j < |records|
      ensures rendered[j] == RecordBlocks(records)[j]
    {
      RecordBlocksAt(records, j);
    }
  }

  lemma {:induction false} UnionLinesAt(unions: seq<UnionDecl>, k: nat)
    requires k < |unions|
    ensures UnionLines(unions)[k] == UnionText(unions[k])
  {
    var n := |unions| - 1;
    if k < n {
      assert unions[..n][k] == unions[k];
      UnionLinesAt(unions[..n], k);
    }
  }

  /** Rendering element by element, in order, gives `UnionLines`. */
  lemma UnionLinesPointwise(unions: seq<UnionDecl>, rendered: seq<string>)
    requires |rendered| == |unions|
    requires forall j {:trigger rendered[j]} :: 0 <= j < |unions| ==> rendered[j] == UnionText(unions[j])
    ensures rendered == UnionLines(unions)
  {
    forall j | 0 <= j < |unions|
      ensures rendered[j] == UnionLines(unions)[j]
    {
      UnionLinesAt(unions, j);
    }
  }

  /** `root_type R;` unless the root type is null or empty. */
  function RootText(rootType: Option<string>): string
  {
    if NonEmpty(rootType) then "root_type " + rootType.value + ";" + "\n" else ""
  }

  /** The text before trimming: the sections in their fixed order. */
  function RawText(d: Document): string
  {
    NamespaceText(d.namespaceName) + AttributesText(d.fileLevelAttributes)
    + Unlines(EnumLines(d.enums)) + Unlines(RecordBlocks(d.records)) + Unlines(UnionLines(d.unions))
    + RootText(d.rootType)
  }

  /** `FlatBufferSchema.ToFbsString`. */
  function DocumentText(d: Document): (r: string)
    ensures r <= RawText(d)
    ensures forall i :: |r| <= i < |RawText(d)| ==> IsWhiteSpace(RawText(d)[i])
    ensures r == [] || !IsWhiteSpace(r[|r| - 1])
  {
    TrimEndTrims(RawText(d));
    TrimEnd(RawText(d))
  }

  // ------------------------------------------------------------- line view

  function NamespaceLines(ns: string): seq<string>
  {
    if IsNullOrWhiteSpace(ns) then [] else ["namespace " + ns + ";", ""]
  }

  function AttributeSection(attributes: seq<string>): seq<string>
  {
    AttributeLines(attributes) + (if |attributes| > 0 then [""] else [])
  }

  /** The physical lines of all record blocks, in list order. */
  function RecordsLines(records: seq<RecordDecl>): seq<string>
  {
    if records == [] then []
    else RecordsLines(records[..|records| - 1]) + RecordLines(records[|records| - 1])
  }

  function RootLines(rootType: Option<string>): seq<string>
  {
    if NonEmpty(rootType) then ["root_type " + rootType.value + ";"] else []
  }

  /** The lines of the document as they appear in the text, each record block over several lines. */
  function PhysicalLines(d: Document): seq<string>
  {
    NamespaceLines(d.namespaceName) + AttributeSection(d.fileLevelAttributes) + EnumLines(d.enums)
    + RecordsLines(d.records) + UnionLines(d.unions) + RootLines(d.rootType)
  }

  /** Appending each record block with a newline yields exactly the blocks' physical lines. */
  lemma {:induction false} RecordBlocksAsLines(records: seq<RecordDecl>)
    ensures Unlines(RecordBlocks(records)) == Unlines(RecordsLines(records))
  {
    if records != [] {
      var n := |records| - 1;
      var r := records[n];
      RecordBlocksAsLines(records[..n]);
      UnlinesSnoc(RecordBlocks(records[..n]), RecordText(r));
      RecordTextLines(r);
      UnlinesAppend(RecordsLines(records[..n]), RecordLines(r));
    }
  }

  lemma UnlinesAppendSix(a: seq<string>, b: seq<string>, c: seq<string>, e: seq<string>, f: seq<string>, g: seq<string>)
    ensures Unlines(a + b + c + e + f + g) == Unlines(a) + Unlines(b) + Unlines(c) + Unlines(e) + Unlines(f) + Unlines(g)
  {
    UnlinesAppend(a, b);
    UnlinesAppend(a + b, c);
    UnlinesAppend(a + b + c, e);
    UnlinesAppend(a + b + c + e, f);
    UnlinesAppend(a + b + c + e + f, g);
  }

  lemma TakeOfAppendSix(a: string, b: string, c: string, e: string, f: string, g: string, n: nat)
    requires n <= |a|
    ensures (a + b + c + e + f + g)[..n] == a[..n]
  {
    TakeOfAppend(a, b, n);
    TakeOfAppend(a + b, c, n);
    TakeOfAppend(a + b + c, e, n);
    TakeOfAppend(a + b + c + e, f, n);
    TakeOfAppend(a + b + c + e + f, g, n);
  }

  lemma NamespaceTextLines(ns: string)
    ensures Unlines(NamespaceLines(ns)) == NamespaceText(ns)
  {
    if !IsNullOrWhiteSpace(ns) {
      var first := "namespace " + ns + ";";
      UnlinesOne(first);
      UnlinesSnoc([first], "");
      assert [first] + [""] == NamespaceLines(ns);
    }
  }

  lemma AttributesTextLines(attributes: seq<string>)
    ensures Unlines(AttributeSection(attributes)) == AttributesText(attributes)
  {
    if |attributes| > 0 {
      UnlinesSnoc(AttributeLines(attributes), "");
    } else {
      assert AttributeSection(attributes) == AttributeLines(attributes);
    }
  }

  lemma RootTextLines(rootType: Option<string>)
    ensures Unlines(RootLines(rootType)) == RootText(rootType)
  {
    if NonEmpty(rootType) {
      var line := "root_type " + rootType.value + ";";
      UnlinesOne(line);
    }
  }

  /** The untrimmed text is the physical lines, one "\n" after each. */
  lemma RawTextLines(d: Document)
    ensures RawText(d) == Unlines(PhysicalLines(d))
  {
    var a, b, c := NamespaceLines(d.namespaceName), AttributeSection(d.fileLevelAttributes), EnumLines(d.enums);
    var e, f, g := RecordsLines(d.records), UnionLines(d.unions), RootLines(d.rootType);
    NamespaceTextLines(d.namespaceName);
    AttributesTextLines(d.fileLevelAttributes);
    RootTextLines(d.rootType);
    RecordBlocksAsLines(d.records);
    UnlinesAppendSix(a, b, c, e, f, g);
  }

  /** Splitting the untrimmed text on "\n" gives back the physical lines, when no line holds a newline. */
  lemma DocumentLinesRecovered(d: Document)
    requires forall k :: 0 <= k < |PhysicalLines(d)| ==> '\n' !in PhysicalLines(d)[k]
    ensures Split(RawText(d), "\n") == PhysicalLines(d) + [""]
  {
    RawTextLines(d);
    SplitUnlines(PhysicalLines(d));
  }

  /** A namespace that is not blank opens the document as `namespace N;`. */
  lemma DocumentStartsWithNamespace(d: Document)
    requires !IsNullOrWhiteSpace(d.namespaceName)
    ensures "namespace " + d.namespaceName + ";" <= DocumentText(d)
  {
    var first := "namespace " + d.namespaceName + ";";
    var n := |first|;
    var a := NamespaceText(d.namespaceName);
    assert a[..n] == first;
    TakeOfAppendSix(a, AttributesText(d.fileLevelAttributes), Unlines(EnumLines(d.enums)),
                    Unlines(RecordBlocks(d.records)), Unlines(UnionLines(d.unions)), RootText(d.rootType), n);
    assert RawText(d)[..n] == first;
    assert RawText(d)[n - 1] == ';';
    TrimEndKeeps(RawText(d), n - 1);
  }

  /** A non-empty root type closes the document as `root_type R;`. */
  lemma DocumentEndsWithRootType(d: Document)
    requires NonEmpty(d.rootType)
    ensures EndsWith(DocumentText(d), "root_type " + d.rootType.value + ";")
  {
    var last := "root_type " + d.rootType.value + ";";
    var before := NamespaceText(d.namespaceName) + AttributesText(d.fileLevelAttributes)
      + Unlines(EnumLines(d.enums)) + Unlines(RecordBlocks(d.records)) + Unlines(UnionLines(d.unions));
    assert RawText(d) == (before + last) + "\n";
    TrimEndLastLine(before + last);
  }

  /** Without a namespace, attributes, enums, records, unions or root type, the document is empty. */
  lemma EmptyDocument(ns: string)
    requires IsNullOrWhiteSpace(ns)
    ensures DocumentText(Document(ns, [], [], [], [], None)) == ""
  {
  }
}
