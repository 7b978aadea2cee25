# FlatBuffers schema generator — a verified model

The FlatBufferMetaGenerator plugin runs inside the Unreal Header Tool. For each
script struct it writes a FlatBuffers schema (`.fbs`) file and compiles it with
`flatc`. It then writes an aggregator header that `#include`s every generated C++
header. This project models the three files behind that work:

- **Schema document and renderer** (`FlatBufferSchema.cs`). Modules `SchemaModel`
  and `Schema`.
  - `SchemaModel` holds the document as values: namespace, file attributes, enums,
    structs/tables, unions and root type. It also holds the text each one renders
    to. The methods of `Schema` are proved against these values.
  - `Schema` holds the mutable classes: `FlatBufferSchema`, `FbsEnum`,
    `FbsStructOrTable` and `FbsUnion`. Their lists are `seq` fields that the `Add`
    methods reassign.
  - Each `ToFbsString` method is proved to produce the text of its object's value
    model.
- **Type mapper, field builder, enum collector and single-struct assembler**
  (`FlatBufferSchemaGenerator.cs`). Modules `GeneratorTypes`, `TypeMapper`,
  `FieldExtraction`, `EnumCollector`, `Assembler` and `AssemblyProperties`.
  - The reflected header types become a closed datatype: one `PropertyKind`
    variant per case of the type switch, plus a tree of type nodes.
  - The loops (`ExtractStructFields`, `GatherEnumsRecursive`,
    `BuildSingleStructFbs`) are methods, and so is `TryGetExtraAttributes`, which
    builds its list of terms step by step without a loop. Each is proved against
    a function that states what it computes.
- **The export driver** (`FlatBufferSchemaExporter.cs`). Module `Exporter`.
  - It covers the per-struct file names, the paths, the `flatc` command line, the
    aggregator header text and the export loop.
  - File writes are returned as a list of `FileWrite` values.
  - The `flatc` process is a function parameter from (executable, arguments,
    working directory) to an exit code.
  - Exceptions become the `Outcome` datatype.

Module `Text` models the .NET string operations the code relies on:
- `ToLowerInvariant` and ordinal ignore-case comparison;
- `TrimEnd`, `string.Join` and `string.Split`;
- `StringBuilder.AppendLine`;
- the decimal formatting of `long`.

Module `Wrappers` holds `Option`.

Two points where the code does less than its own comments or names suggest; the
model follows the code:
- The doc comment of `TryGetDefaultValue` (FlatBufferSchemaGenerator.cs:247-249)
  describes quoting string defaults, but the code returns the metadata value
  unchanged (254-257).
- `BuildSingleStructFbs` sets `RootType` (FlatBufferSchemaGenerator.cs:455)
  without checking that a record of that name exists.

Source paths below are relative to the repository root. `FlatBufferSchema.cs`,
`FlatBufferSchemaGenerator.cs` and `FlatBufferSchemaExporter.cs` are in
`Plugins/FlatBufferMetaGenerator/Source/FlatBufferGenerator/`.

## Model

| member | source | states |
|---|---|---|
| Text.LowerLetters | Plugins/FlatBufferMetaGenerator/Source/FlatBufferGenerator/FlatBufferSchemaGenerator.cs:138 | Lower-casing keeps the length and leaves no capital letter. It maps each capital to the letter 32 code points above and leaves every other character unchanged. |
| Text.LowerIdempotent | Plugins/FlatBufferMetaGenerator/Source/FlatBufferGenerator/FlatBufferSchemaGenerator.cs:138 | Lower-casing twice is the same as once, and the result equals the input ignoring case. |
| Text.TrimEndTrims | Plugins/FlatBufferMetaGenerator/Source/FlatBufferGenerator/FlatBufferSchema.cs:65 | `TrimEnd` returns a prefix of its input, and everything it drops is white space. The result is empty or ends in a non-white-space character. |
| Text.TrimEndKeeps | Plugins/FlatBufferMetaGenerator/Source/FlatBufferGenerator/FlatBufferSchema.cs:65 | `TrimEnd` never removes a non-white-space character or anything before it. |
| Text.TrimEndLastLine | Plugins/FlatBufferMetaGenerator/Source/FlatBufferGenerator/FlatBufferSchema.cs:65 | On text whose last line ends in a visible character, `TrimEnd` removes exactly the final newline. |
| Text.JoinSingleLine | Plugins/FlatBufferMetaGenerator/Source/FlatBufferGenerator/FlatBufferSchema.cs:100 | Joining newline-free items with a newline-free separator gives a newline-free text. |
| Text.JoinShort | Plugins/FlatBufferMetaGenerator/Source/FlatBufferGenerator/FlatBufferSchemaGenerator.cs:286 | Joining one term gives the term. Joining two gives them with the separator between. |
| Text.Split | Plugins/FlatBufferMetaGenerator/Source/FlatBufferGenerator/FlatBufferSchemaGenerator.cs:328 | `string.Split` with a non-empty separator always returns at least one part. |
| Text.SplitFirstPrefix | Plugins/FlatBufferMetaGenerator/Source/FlatBufferGenerator/FlatBufferSchemaGenerator.cs:328 | The first part of a split is a prefix of the input. |
| Text.SplitPartsAvoidSeparator | Plugins/FlatBufferMetaGenerator/Source/FlatBufferGenerator/FlatBufferSchemaGenerator.cs:328 | No part of a split contains the separator. |
| Text.SplitWithoutOccurrence | Plugins/FlatBufferMetaGenerator/Source/FlatBufferGenerator/FlatBufferSchemaGenerator.cs:328 | A string without the separator splits into itself alone. |
| Text.SplitAfterPart | Plugins/FlatBufferMetaGenerator/Source/FlatBufferGenerator/FlatBufferSchemaGenerator.cs:328 | A part that does not contain the separator's first character, followed by the separator, splits off as the first part. |
| Text.JoinSplit | Plugins/FlatBufferMetaGenerator/Source/FlatBufferGenerator/FlatBufferSchemaGenerator.cs:328 | Joining the parts of a split with the same separator gives back the input. |
| Text.SplitJoin | Plugins/FlatBufferMetaGenerator/Source/FlatBufferGenerator/FlatBufferSchemaGenerator.cs:286 | When no item contains the separator's first character, splitting the join of the items gives back the items. |
| Text.JoinEndsWithLast | Plugins/FlatBufferMetaGenerator/Source/FlatBufferGenerator/FlatBufferSchemaGenerator.cs:286 | A join ends with its last item. |
| Text.UnlinesAppend | Plugins/FlatBufferMetaGenerator/Source/FlatBufferGenerator/FlatBufferSchema.cs:22-63 | Appending two runs of lines gives the concatenation of their texts. |
| Text.SplitUnlines | Plugins/FlatBufferMetaGenerator/Source/FlatBufferGenerator/FlatBufferSchema.cs:22-63 | Lines appended one by one, none holding a newline, read back by splitting at newlines, followed by one empty part. |
| Text.UnlinesAsJoin | Plugins/FlatBufferMetaGenerator/Source/FlatBufferGenerator/FlatBufferSchemaExporter.cs:165-177 | A run of appended lines is the newline-join of the lines plus an empty last line. |
| Text.DecimalText | Plugins/FlatBufferMetaGenerator/Source/FlatBufferGenerator/FlatBufferSchema.cs:90 | The decimal text of a `long` is digits with an optional leading minus sign. The sign appears exactly when the value is negative. |
| Text.DecimalRoundTrip | Plugins/FlatBufferMetaGenerator/Source/FlatBufferGenerator/FlatBufferSchema.cs:90 | Parsing the decimal text of an integer gives back the integer. |
| Text.ParseNatText | Plugins/FlatBufferMetaGenerator/Source/FlatBufferGenerator/FlatBufferSchema.cs:90 | Parsing the digits of a natural number gives back the number. |
| SchemaModel.FieldTextShape | Plugins/FlatBufferMetaGenerator/Source/FlatBufferGenerator/FlatBufferSchema.cs:163-180 | A field renders as `name: type`. ` = default` follows only for a non-empty default and ` attrs` only for non-empty attributes. The text ends in `;`, with the exact text given for each case. |
| SchemaModel.FieldText | Plugins/FlatBufferMetaGenerator/Source/FlatBufferGenerator/FlatBufferSchema.cs:163-180 | The text starts with `name: type` and ends in `;`. |
| SchemaModel.RecordText | Plugins/FlatBufferMetaGenerator/Source/FlatBufferGenerator/FlatBufferSchema.cs:131-142 | The text starts with the header `table N {` or `struct N {` and a newline, and ends in `}`. |
| SchemaModel.UnionText | Plugins/FlatBufferMetaGenerator/Source/FlatBufferGenerator/FlatBufferSchema.cs:193-197 | The text starts with `union N { ` and ends with ` }`. |
| SchemaModel.DocumentText | Plugins/FlatBufferMetaGenerator/Source/FlatBufferGenerator/FlatBufferSchema.cs:20-66 | The document text is a prefix of the appended text, everything dropped from its end is white space, and it is empty or ends in a non-white-space character. |
| SchemaModel.EmptyOptionalsVanish | Plugins/FlatBufferMetaGenerator/Source/FlatBufferGenerator/FlatBufferSchema.cs:168-176 | An empty default or empty attribute string renders the same as an absent one. |
| SchemaModel.EnumItemsAt | Plugins/FlatBufferMetaGenerator/Source/FlatBufferGenerator/FlatBufferSchema.cs:85-96 | The k-th enum item is the rendering of the k-th value, one item per value. |
| SchemaModel.BareEnumValue | Plugins/FlatBufferMetaGenerator/Source/FlatBufferGenerator/FlatBufferSchema.cs:109-113 | An enum value built without a value has no explicit value and renders as its bare name. |
| SchemaModel.ExplicitEnumValue | Plugins/FlatBufferMetaGenerator/Source/FlatBufferGenerator/FlatBufferSchema.cs:88-91 | A value with an explicit number renders as `Name = digits`, and those digits parse back to the number. |
| SchemaModel.EnumItemsInOrder | Plugins/FlatBufferMetaGenerator/Source/FlatBufferGenerator/FlatBufferSchema.cs:81-101 | An enum renders as `enum N : T { body }`, and splitting the body at `, ` gives the items in list order. |
| SchemaModel.EnumItemSingleLine | Plugins/FlatBufferMetaGenerator/Source/FlatBufferGenerator/FlatBufferSchema.cs:88-95 | An enumerator whose name has no newline renders without a newline, with or without an explicit value. |
| SchemaModel.EnumTextSingleLine | Plugins/FlatBufferMetaGenerator/Source/FlatBufferGenerator/FlatBufferSchema.cs:81-101 | When the enum name, the underlying type and every enumerator name are free of newlines, the whole enum renders on one line. |
| SchemaModel.EnumText | Plugins/FlatBufferMetaGenerator/Source/FlatBufferGenerator/FlatBufferSchema.cs:81-101 | The text starts with `enum N : T { ` and ends with ` }`. |
| SchemaModel.FieldLinesAt | Plugins/FlatBufferMetaGenerator/Source/FlatBufferGenerator/FlatBufferSchema.cs:136-139 | The k-th field line is the k-th field indented by two spaces. |
| SchemaModel.RecordLines | Plugins/FlatBufferMetaGenerator/Source/FlatBufferGenerator/FlatBufferSchema.cs:131-142 | A record's lines are its header, one line per field, and a closing `}`. |
| SchemaModel.RecordTextLines | Plugins/FlatBufferMetaGenerator/Source/FlatBufferGenerator/FlatBufferSchema.cs:131-142 | A record's text, plus a newline, is exactly its lines. Line k+1 is field k indented by two spaces, so fields appear in list order. |
| SchemaModel.UnionMembersInOrder | Plugins/FlatBufferMetaGenerator/Source/FlatBufferGenerator/FlatBufferSchema.cs:193-197 | A union renders as `union N { body }`, and splitting the body at `, ` gives the member types in list order. |
| SchemaModel.EnumLinesAt | Plugins/FlatBufferMetaGenerator/Source/FlatBufferGenerator/FlatBufferSchema.cs:41-45 | The k-th enum line of the document is the rendering of the k-th enum. |
| SchemaModel.RecordBlocksAt | Plugins/FlatBufferMetaGenerator/Source/FlatBufferGenerator/FlatBufferSchema.cs:47-51 | The k-th record block is the rendering of the k-th struct or table. |
| SchemaModel.UnionLinesAt | Plugins/FlatBufferMetaGenerator/Source/FlatBufferGenerator/FlatBufferSchema.cs:53-57 | The k-th union line is the rendering of the k-th union. |
| SchemaModel.NamespaceTextLines | Plugins/FlatBufferMetaGenerator/Source/FlatBufferGenerator/FlatBufferSchema.cs:24-29 | The namespace section is the line `namespace N;` plus a blank line, present only when the name is not null or white space. |
| SchemaModel.AttributesTextLines | Plugins/FlatBufferMetaGenerator/Source/FlatBufferGenerator/FlatBufferSchema.cs:31-39 | The attribute section is one `attribute "x";` line per attribute, with one blank line after them only if there is at least one. |
| SchemaModel.RootTextLines | Plugins/FlatBufferMetaGenerator/Source/FlatBufferGenerator/FlatBufferSchema.cs:59-63 | The root section is `root_type R;` only for a non-empty root type. |
| SchemaModel.RawTextLines | Plugins/FlatBufferMetaGenerator/Source/FlatBufferGenerator/FlatBufferSchema.cs:22-63 | The built-up text is the document's physical lines in section order: namespace, attributes, enums, records, unions, root type. |
| SchemaModel.DocumentLinesRecovered | Plugins/FlatBufferMetaGenerator/Source/FlatBufferGenerator/FlatBufferSchema.cs:22-63 | When no element holds a newline, splitting the built-up text at newlines gives back the physical lines. |
| SchemaModel.DocumentStartsWithNamespace | Plugins/FlatBufferMetaGenerator/Source/FlatBufferGenerator/FlatBufferSchema.cs:24-29 | A document with a visible namespace starts with `namespace N;`. |
| SchemaModel.DocumentEndsWithRootType | Plugins/FlatBufferMetaGenerator/Source/FlatBufferGenerator/FlatBufferSchema.cs:59-65 | A document with a root type ends, after trimming, exactly with `root_type R;`. |
| SchemaModel.EmptyDocument | Plugins/FlatBufferMetaGenerator/Source/FlatBufferGenerator/FlatBufferSchema.cs:20-66 | A document with a blank namespace and nothing else renders as the empty string. |
| Schema.FbsEnum.constructor | Plugins/FlatBufferMetaGenerator/Source/FlatBufferGenerator/FlatBufferSchema.cs:75-79 | A new enum has the given name and underlying type and no values. |
| Schema.FbsEnum.AddValue | Plugins/FlatBufferMetaGenerator/Source/FlatBufferGenerator/FlatBufferSchema.cs:73 | Appends one value at the end of the value list. |
| Schema.FbsEnum.ToFbsString | Plugins/FlatBufferMetaGenerator/Source/FlatBufferGenerator/FlatBufferSchema.cs:81-101 | The collecting loop and the join produce the text of the enum's value model (see `SchemaModel.EnumTextSingleLine` for the single line). |
| Schema.FbsStructOrTable.constructor | Plugins/FlatBufferMetaGenerator/Source/FlatBufferGenerator/FlatBufferSchema.cs:125-129 | A new record has the given name and kind and no fields. |
| Schema.FbsStructOrTable.AddField | Plugins/FlatBufferMetaGenerator/Source/FlatBufferGenerator/FlatBufferSchema.cs:123 | Appends one field at the end of the field list. |
| Schema.FbsStructOrTable.ToFbsString | Plugins/FlatBufferMetaGenerator/Source/FlatBufferGenerator/FlatBufferSchema.cs:131-142 | The builder loop produces the record's text: header, indented fields in order, and `}` with no trailing newline (see `SchemaModel.RecordTextLines`). |
| Schema.FbsUnion.constructor | Plugins/FlatBufferMetaGenerator/Source/FlatBufferGenerator/FlatBufferSchema.cs:188-191 | A new union has the given name and no member types. |
| Schema.FbsUnion.AddType | Plugins/FlatBufferMetaGenerator/Source/FlatBufferGenerator/FlatBufferSchema.cs:186 | Appends one member type at the end. |
| Schema.FbsUnion.ToFbsString | Plugins/FlatBufferMetaGenerator/Source/FlatBufferGenerator/FlatBufferSchema.cs:193-197 | The text is that of the union's value model: it starts with `union N { ` for the union's name and ends with ` }`. |
| Schema.FlatBufferSchema.constructor | Plugins/FlatBufferMetaGenerator/Source/FlatBufferGenerator/FlatBufferSchema.cs:13-18 | A new schema has an empty namespace, empty lists and no root type. |
| Schema.FlatBufferSchema.SetNamespaceName | Plugins/FlatBufferMetaGenerator/Source/FlatBufferGenerator/FlatBufferSchema.cs:13 | Replaces the namespace and changes nothing else. |
| Schema.FlatBufferSchema.SetRootType | Plugins/FlatBufferMetaGenerator/Source/FlatBufferGenerator/FlatBufferSchema.cs:18 | Replaces the root type and changes nothing else. |
| Schema.FlatBufferSchema.AddFileLevelAttribute | Plugins/FlatBufferMetaGenerator/Source/FlatBufferGenerator/FlatBufferSchema.cs:14 | Appends one attribute and changes nothing else. |
| Schema.FlatBufferSchema.AddEnum | Plugins/FlatBufferMetaGenerator/Source/FlatBufferGenerator/FlatBufferSchema.cs:15 | Appends one enum, whose current value becomes the document's last enum, and changes nothing else. |
| Schema.FlatBufferSchema.AddStructOrTable | Plugins/FlatBufferMetaGenerator/Source/FlatBufferGenerator/FlatBufferSchema.cs:16 | Appends one struct or table and changes nothing else. |
| Schema.FlatBufferSchema.AddUnion | Plugins/FlatBufferMetaGenerator/Source/FlatBufferGenerator/FlatBufferSchema.cs:17 | Appends one union and changes nothing else. |
| Schema.FlatBufferSchema.RenderEnums | Plugins/FlatBufferMetaGenerator/Source/FlatBufferGenerator/FlatBufferSchema.cs:41-45 | Renders every enum, in list order, without changing the schema. |
| Schema.FlatBufferSchema.RenderStructsOrTables | Plugins/FlatBufferMetaGenerator/Source/FlatBufferGenerator/FlatBufferSchema.cs:47-51 | Renders every struct or table, in list order, without changing the schema. |
| Schema.FlatBufferSchema.RenderUnions | Plugins/FlatBufferMetaGenerator/Source/FlatBufferGenerator/FlatBufferSchema.cs:53-57 | Renders every union, in list order, without changing the schema. |
| Schema.FlatBufferSchema.ToFbsString | Plugins/FlatBufferMetaGenerator/Source/FlatBufferGenerator/FlatBufferSchema.cs:20-66 | The result is the trimmed text of the schema's current document, and the schema is left unchanged. Repeated calls therefore give identical text. |
| Schema.AppendSections | Plugins/FlatBufferMetaGenerator/Source/FlatBufferGenerator/FlatBufferSchema.cs:22-63 | The six sections are appended in the fixed order. |
| Schema.AppendNamespace | Plugins/FlatBufferMetaGenerator/Source/FlatBufferGenerator/FlatBufferSchema.cs:24-29 | Appends the namespace section. |
| Schema.AppendAttributes | Plugins/FlatBufferMetaGenerator/Source/FlatBufferGenerator/FlatBufferSchema.cs:31-39 | The loop appends the attribute section. |
| Schema.AppendRootType | Plugins/FlatBufferMetaGenerator/Source/FlatBufferGenerator/FlatBufferSchema.cs:59-63 | Appends the root-type section. |
| Schema.AppendEach | Plugins/FlatBufferMetaGenerator/Source/FlatBufferGenerator/FlatBufferSchema.cs:42-45 | The loop appends each line followed by a newline. |
| TypeMapper.MapToFlatBufferType | Plugins/FlatBufferMetaGenerator/Source/FlatBufferGenerator/FlatBufferSchemaGenerator.cs:152-245 | The mapper is total. `isEnum` is set exactly for an enum property, and an enum name is reported exactly when `isEnum` is set. |
| TypeMapper.ScalarMapping | Plugins/FlatBufferMetaGenerator/Source/FlatBufferGenerator/FlatBufferSchemaGenerator.cs:157-243 | Every property other than an array or set maps to one of the fixed scalar, `string`, `table` or `Vec3` names. |
| TypeMapper.MappedIsSchemaType | Plugins/FlatBufferMetaGenerator/Source/FlatBufferGenerator/FlatBufferSchemaGenerator.cs:152-245 | Every mapped type is such a name, `[]`, or a bracketed vector of a mapped type. |
| TypeMapper.VectorTypes | Plugins/FlatBufferMetaGenerator/Source/FlatBufferGenerator/FlatBufferSchemaGenerator.cs:184-198 | A type starts with `[` exactly for arrays and sets. It is `[]` without an element property and `[` + the element's mapping + `]` with one. |
| TypeMapper.Vec3Exactly | Plugins/FlatBufferMetaGenerator/Source/FlatBufferGenerator/FlatBufferSchemaGenerator.cs:218-227 | The type is `Vec3` exactly for a struct property whose struct is `FVector`, ignoring case. |
| TypeMapper.TableExactly | Plugins/FlatBufferMetaGenerator/Source/FlatBufferGenerator/FlatBufferSchemaGenerator.cs:200-227 | The type is `table` exactly for maps, optionals and structs other than `FVector`. |
| TypeMapper.StringExactly | Plugins/FlatBufferMetaGenerator/Source/FlatBufferGenerator/FlatBufferSchemaGenerator.cs:181-243 | The type is `string` exactly for strings, names, texts, object-like and delegate-like properties, void and unlisted kinds. |
| TypeMapper.EnumReported | Plugins/FlatBufferMetaGenerator/Source/FlatBufferGenerator/FlatBufferSchemaGenerator.cs:232-237 | An enum property returns `int` and reports its enum's source name, or `int` when that is missing. |
| TypeMapper.VectorOfEnums | Plugins/FlatBufferMetaGenerator/Source/FlatBufferGenerator/FlatBufferSchemaGenerator.cs:184-198 | An array or set of enums maps to `[int]` with no enum reported, because the element's enum information is discarded. |
| FieldExtraction.TryGetDefaultValue | Plugins/FlatBufferMetaGenerator/Source/FlatBufferGenerator/FlatBufferSchemaGenerator.cs:251-260 | There is a default exactly when the `FlatBufferDefault` key is present, and it is that metadata value unchanged. |
| FieldExtraction.AttributeTermsCases | Plugins/FlatBufferMetaGenerator/Source/FlatBufferGenerator/FlatBufferSchemaGenerator.cs:269-279 | The collected terms for each combination of `Deprecated` and `Priority`: `deprecated` comes before `priority: V`. |
| FieldExtraction.ExtraAttributesCases | Plugins/FlatBufferMetaGenerator/Source/FlatBufferGenerator/FlatBufferSchemaGenerator.cs:262-287 | There are no attributes exactly when neither key is present, and never `()`. Otherwise the exact text is `(deprecated)`, `(priority: V)` or `(deprecated, priority: V)`. |
| FieldExtraction.ExtraAttributesOf | Plugins/FlatBufferMetaGenerator/Source/FlatBufferGenerator/FlatBufferSchemaGenerator.cs:262-287 | There are no attributes exactly when neither `Deprecated` nor `Priority` is present; otherwise the value is wrapped in parentheses and is longer than `()`. |
| FieldExtraction.TryGetExtraAttributes | Plugins/FlatBufferMetaGenerator/Source/FlatBufferGenerator/FlatBufferSchemaGenerator.cs:262-287 | The list-building method returns the attribute value characterised by `ExtraAttributesCases`. |
| FieldExtraction.EnumFieldType | Plugins/FlatBufferMetaGenerator/Source/FlatBufferGenerator/FlatBufferSchemaGenerator.cs:122-128 | An enum property's field type is its enum's name, or `int`. Any other property's field type is the mapped type. |
| FieldExtraction.FieldType | Plugins/FlatBufferMetaGenerator/Source/FlatBufferGenerator/FlatBufferSchemaGenerator.cs:122-128 | An enum property is typed by its enum's name, or `int` when the enum is unknown; any other property by a schema type (a scalar name, `[]` or a vector of one). |
| FieldExtraction.FieldFromProperty | Plugins/FlatBufferMetaGenerator/Source/FlatBufferGenerator/FlatBufferSchemaGenerator.cs:118-145 | The field name has the property name's length and equals it ignoring case. The field has a default exactly when `FlatBufferDefault` is present, and attributes exactly when `Deprecated` or `Priority` is. |
| FieldExtraction.FieldNameLowered | Plugins/FlatBufferMetaGenerator/Source/FlatBufferGenerator/FlatBufferSchemaGenerator.cs:138 | The field name has the property name's length, has no capitals and equals it ignoring case. |
| FieldExtraction.DefaultsFromMetadataOnly | Plugins/FlatBufferMetaGenerator/Source/FlatBufferGenerator/FlatBufferSchemaGenerator.cs:251-260 | Default and attributes depend on the metadata alone. There is a default exactly when `FlatBufferDefault` is present. |
| FieldExtraction.ExtractStructFields | Plugins/FlatBufferMetaGenerator/Source/FlatBufferGenerator/FlatBufferSchemaGenerator.cs:112-150 | One field per property of a script struct, in declaration order, each built from its property. Any other type yields no fields. |
| FieldExtraction.SampleManaField | Source/TestingFlatBuffers/FlatbufferTestActor.h:26-27 | The sample `Mana` property becomes `mana: int` with default `150`. |
| FieldExtraction.SampleHpField | Source/TestingFlatBuffers/FlatbufferTestActor.h:29-30 | The sample `HP` property becomes `hp: int` with default `100`. |
| FieldExtraction.SampleNameField | Source/TestingFlatBuffers/FlatbufferTestActor.h:32-33 | The sample `Name` property becomes `name: string`. |
| FieldExtraction.SampleInventoryField | Source/TestingFlatBuffers/FlatbufferTestActor.h:35-36 | The sample byte array `Inventory` becomes `inventory: [ubyte]`. |
| FieldExtraction.SampleEnumField | Source/TestingFlatBuffers/FlatbufferTestActor.h:38-39 | The sample `ChType` property becomes `chtype: ECharacterType`. |
| EnumCollector.StripScopePrefix | Plugins/FlatBufferMetaGenerator/Source/FlatBufferGenerator/FlatBufferSchemaGenerator.cs:324-330 | The stripped name is a suffix of the enumerator name and contains no `::`. |
| EnumCollector.StripScopePrefixUnqualified | Plugins/FlatBufferMetaGenerator/Source/FlatBufferGenerator/FlatBufferSchemaGenerator.cs:324-330 | A name without `::` is left unchanged. |
| EnumCollector.StripScopePrefixQualified | Plugins/FlatBufferMetaGenerator/Source/FlatBufferGenerator/FlatBufferSchemaGenerator.cs:324-330 | A colon-free scope followed by `::` is dropped. |
| EnumCollector.SampleEnumerator | Plugins/FlatBufferMetaGenerator/Source/FlatBufferGenerator/FlatBufferSchemaGenerator.cs:326-329 | `ECharacterType::AI` becomes `AI`. |
| EnumCollector.MapUnderlyingType | Plugins/FlatBufferMetaGenerator/Source/FlatBufferGenerator/FlatBufferSchemaGenerator.cs:333-355 | The result is always `byte`, `short`, `int` or `long`. |
| EnumCollector.MapUnderlyingTypeIgnoresCase | Plugins/FlatBufferMetaGenerator/Source/FlatBufferGenerator/FlatBufferSchemaGenerator.cs:337 | Names equal ignoring case map to the same type. |
| EnumCollector.CleanEnumerantsAt | Plugins/FlatBufferMetaGenerator/Source/FlatBufferGenerator/FlatBufferSchemaGenerator.cs:304-310 | The k-th enumerant is the k-th enumerator with its scope stripped and its value kept. |
| EnumCollector.EnumInfoOfClean | Plugins/FlatBufferMetaGenerator/Source/FlatBufferGenerator/FlatBufferSchemaGenerator.cs:294-314 | A collected enum has a normalised underlying type and one enumerant per enumerator, in order. Values are kept and names are scope-free suffixes. |
| EnumCollector.EnumsInAppend | Plugins/FlatBufferMetaGenerator/Source/FlatBufferGenerator/FlatBufferSchemaGenerator.cs:292-322 | Collecting from two runs of nodes is collecting from each, in order. |
| EnumCollector.Collected | Plugins/FlatBufferMetaGenerator/Source/FlatBufferGenerator/FlatBufferSchemaGenerator.cs:292-322 | An enum node's own record comes first, and every collected record has underlying type `byte`, `short`, `int` or `long`. |
| EnumCollector.CollectedForest | Plugins/FlatBufferMetaGenerator/Source/FlatBufferGenerator/FlatBufferSchemaGenerator.cs:318-321 | No sibling trees give no records, and every record of the trees has one of the four underlying types. |
| EnumCollector.FoundEnums | Plugins/FlatBufferMetaGenerator/Source/FlatBufferGenerator/FlatBufferSchemaGenerator.cs:358-370 | Every enum found in the packages has underlying type `byte`, `short`, `int` or `long`. |
| EnumCollector.CollectedIsPreOrder | Plugins/FlatBufferMetaGenerator/Source/FlatBufferGenerator/FlatBufferSchemaGenerator.cs:292-322 | The recursive walk collects exactly the enum nodes of the tree's pre-order listing, in that order. |
| EnumCollector.CollectedForestIsPreOrder | Plugins/FlatBufferMetaGenerator/Source/FlatBufferGenerator/FlatBufferSchemaGenerator.cs:318-321 | The same holds for a sequence of sibling trees. |
| EnumCollector.EnumsInFromNodes | Plugins/FlatBufferMetaGenerator/Source/FlatBufferGenerator/FlatBufferSchemaGenerator.cs:294-314 | Every collected entry comes from some enum node of the walk. |
| EnumCollector.CollectedAreClean | Plugins/FlatBufferMetaGenerator/Source/FlatBufferGenerator/FlatBufferSchemaGenerator.cs:292-322 | Every collected enum has a normalised underlying type and scope-free enumerant names. |
| EnumCollector.NoDeduplication | Plugins/FlatBufferMetaGenerator/Source/FlatBufferGenerator/FlatBufferSchemaGenerator.cs:314-321 | An enum reached twice is collected twice. |
| EnumCollector.EnumInfoList.constructor | Plugins/FlatBufferMetaGenerator/Source/FlatBufferGenerator/FlatBufferSchemaGenerator.cs:360 | The output list starts empty. |
| EnumCollector.EnumInfoList.Add | Plugins/FlatBufferMetaGenerator/Source/FlatBufferGenerator/FlatBufferSchemaGenerator.cs:314 | Appends one enum at the end. |
| EnumCollector.GatherEnumsRecursive | Plugins/FlatBufferMetaGenerator/Source/FlatBufferGenerator/FlatBufferSchemaGenerator.cs:292-322 | The recursive method appends exactly the enums of its tree, in pre-order, after what the list held. |
| EnumCollector.FindFlatBufferEnums | Plugins/FlatBufferMetaGenerator/Source/FlatBufferGenerator/FlatBufferSchemaGenerator.cs:358-370 | Returns the enums of every top-level type of every package, in order. |
| Assembler.FirstMatch | Plugins/FlatBufferMetaGenerator/Source/FlatBufferGenerator/FlatBufferSchemaGenerator.cs:429 | A found enum is one of the known enums and its name equals the looked-up name ignoring case. |
| Assembler.FirstMatchFirst | Plugins/FlatBufferMetaGenerator/Source/FlatBufferGenerator/FlatBufferSchemaGenerator.cs:429 | The lookup finds something exactly when some enum matches ignoring case. It then returns the earliest such enum. |
| Assembler.FirstMatchIgnoresCase | Plugins/FlatBufferMetaGenerator/Source/FlatBufferGenerator/FlatBufferSchemaGenerator.cs:429 | Names equal ignoring case find the same enum. |
| Assembler.MemberIgnoreCaseExists | Plugins/FlatBufferMetaGenerator/Source/FlatBufferGenerator/FlatBufferSchemaGenerator.cs:395 | Membership in the case-insensitive name set is having an element equal ignoring case. |
| Assembler.NeededEnumNames | Plugins/FlatBufferMetaGenerator/Source/FlatBufferGenerator/FlatBufferSchemaGenerator.cs:403-409 | At most one needed name per field. |
| Assembler.UsesVec3Exists | Plugins/FlatBufferMetaGenerator/Source/FlatBufferGenerator/FlatBufferSchemaGenerator.cs:411-415 | The Vec3 flag is set exactly when some field type equals `Vec3` ignoring case. |
| Assembler.FieldsOfAt | Plugins/FlatBufferMetaGenerator/Source/FlatBufferGenerator/FlatBufferSchemaGenerator.cs:418-423 | The k-th table field is the k-th input field, with its values unchanged. |
| Assembler.ExplicitValuesAt | Plugins/FlatBufferMetaGenerator/Source/FlatBufferGenerator/FlatBufferSchemaGenerator.cs:434-437 | The k-th enum value is the k-th enumerant with its value made explicit. |
| Assembler.NeededEnumDeclsSnoc | Plugins/FlatBufferMetaGenerator/Source/FlatBufferGenerator/FlatBufferSchemaGenerator.cs:427-439 | Each further needed name adds the declaration of its first match, or nothing when there is no match. |
| Assembler.BuildTable | Plugins/FlatBufferMetaGenerator/Source/FlatBufferGenerator/FlatBufferSchemaGenerator.cs:395-424 | The field loop builds the table of the struct, the needed enum names and the Vec3 flag. |
| Assembler.NewEnum | Plugins/FlatBufferMetaGenerator/Source/FlatBufferGenerator/FlatBufferSchemaGenerator.cs:433-437 | Builds the enum of a found entry, with every value explicit. |
| Assembler.NewVec3 | Plugins/FlatBufferMetaGenerator/Source/FlatBufferGenerator/FlatBufferSchemaGenerator.cs:444-447 | Builds the struct `Vec3` with float fields x, y and z. |
| Assembler.AddEnumFor | Plugins/FlatBufferMetaGenerator/Source/FlatBufferGenerator/FlatBufferSchemaGenerator.cs:429-438 | Adds the first matching enum, or skips a name with no match. |
| Assembler.AddNeededEnums | Plugins/FlatBufferMetaGenerator/Source/FlatBufferGenerator/FlatBufferSchemaGenerator.cs:426-439 | The loop appends the declarations of all needed names in order and changes nothing else. |
| Assembler.NewSchema | Plugins/FlatBufferMetaGenerator/Source/FlatBufferGenerator/FlatBufferSchemaGenerator.cs:388-392 | The new schema has the given namespace, the single attribute `priority`, and nothing else. |
| Assembler.AddRecords | Plugins/FlatBufferMetaGenerator/Source/FlatBufferGenerator/FlatBufferSchemaGenerator.cs:441-452 | Appends `Vec3` when it is needed, then the table. |
| Assembler.RenderWithRoot | Plugins/FlatBufferMetaGenerator/Source/FlatBufferGenerator/FlatBufferSchemaGenerator.cs:455-458 | Sets the root type and returns the text of the resulting document. |
| Assembler.AssembleDocument | Plugins/FlatBufferMetaGenerator/Source/FlatBufferGenerator/FlatBufferSchemaGenerator.cs:388-458 | The assembled schema has at most one enum per field and one or two records, the last being the struct's table with one field per struct field. It has no unions, and its root type is the struct's name. |
| Assembler.BuildSingleStructFbs | Plugins/FlatBufferMetaGenerator/Source/FlatBufferGenerator/FlatBufferSchemaGenerator.cs:382-459 | The returned text is the rendering of the assembled document, whose properties are proved in `AssemblyProperties`. |
| AssemblyProperties.NeededNamesStep | Plugins/FlatBufferMetaGenerator/Source/FlatBufferGenerator/FlatBufferSchemaGenerator.cs:406-409 | Stated as the loop tests it: a field adds its type exactly when `Any` enum name equals it ignoring case and `HashSet.Add` under ordinal ignore-case finds no equal name already in the set; otherwise the set is unchanged. |
| AssemblyProperties.NeededNamesKnown | Plugins/FlatBufferMetaGenerator/Source/FlatBufferGenerator/FlatBufferSchemaGenerator.cs:406-409 | Every needed name matches a known enum. |
| AssemblyProperties.NeededNamesDistinct | Plugins/FlatBufferMetaGenerator/Source/FlatBufferGenerator/FlatBufferSchemaGenerator.cs:395 | No two needed names are equal ignoring case. |
| AssemblyProperties.NeededNamesFromFields | Plugins/FlatBufferMetaGenerator/Source/FlatBufferGenerator/FlatBufferSchemaGenerator.cs:403-409 | Every needed name is some field's type. |
| AssemblyProperties.NeededNamesComplete | Plugins/FlatBufferMetaGenerator/Source/FlatBufferGenerator/FlatBufferSchemaGenerator.cs:403-409 | Every field type that matches a known enum is needed, up to case. |
| AssemblyProperties.NeededEnumDeclsAt | Plugins/FlatBufferMetaGenerator/Source/FlatBufferGenerator/FlatBufferSchemaGenerator.cs:427-438 | When every name has a match, there is one declaration per name, and the i-th is built from the i-th name's first match. |
| AssemblyProperties.EnumDeclOfValues | Plugins/FlatBufferMetaGenerator/Source/FlatBufferGenerator/FlatBufferSchemaGenerator.cs:433-437 | An emitted enum has the found name and underlying type and one explicit value per enumerant, in order. |
| AssemblyProperties.AssembledTable | Plugins/FlatBufferMetaGenerator/Source/FlatBufferGenerator/FlatBufferSchemaGenerator.cs:388-455 | The assembled document has namespace `ns.Struct`, the single attribute `priority`, no unions and root type `Struct`. Its last record is the table `Struct`, whose fields equal the input fields in order and value. |
| AssemblyProperties.AssembledVec3 | Plugins/FlatBufferMetaGenerator/Source/FlatBufferGenerator/FlatBufferSchemaGenerator.cs:441-452 | `Vec3` is present exactly when some field type is `Vec3` ignoring case, and then it comes before the table. Otherwise the table is the only record. |
| AssemblyProperties.AssembledEnumsCoverFields | Plugins/FlatBufferMetaGenerator/Source/FlatBufferGenerator/FlatBufferSchemaGenerator.cs:403-439 | Every field type that matches a known enum has that enum's first match emitted. |
| AssemblyProperties.AssembledEnumsFromFields | Plugins/FlatBufferMetaGenerator/Source/FlatBufferGenerator/FlatBufferSchemaGenerator.cs:403-439 | Every emitted enum is the first match of some field's type. |
| AssemblyProperties.AssembledEnumsDistinct | Plugins/FlatBufferMetaGenerator/Source/FlatBufferGenerator/FlatBufferSchemaGenerator.cs:395-439 | No two emitted enums have names equal ignoring case, so each is emitted once. |
| AssemblyProperties.AssembledEnumsExplicit | Plugins/FlatBufferMetaGenerator/Source/FlatBufferGenerator/FlatBufferSchemaGenerator.cs:434-437 | Every value of an emitted enum is explicit. |
| AssemblyProperties.AssembledNamespace | Plugins/FlatBufferMetaGenerator/Source/FlatBufferGenerator/FlatBufferSchemaGenerator.cs:388-391 | The namespace is `ns.Struct`, which is never blank. |
| AssemblyProperties.AssembledTextStart | Plugins/FlatBufferMetaGenerator/Source/FlatBufferGenerator/FlatBufferSchemaGenerator.cs:388-391 | The schema text starts with `namespace ns.Struct;`. |
| AssemblyProperties.AssembledTextEnd | Plugins/FlatBufferMetaGenerator/Source/FlatBufferGenerator/FlatBufferSchemaGenerator.cs:455-458 | For a named struct, the schema text ends with `root_type Struct;`. |
| Exporter.FileNamesDetermineStruct | Plugins/FlatBufferMetaGenerator/Source/FlatBufferGenerator/FlatBufferSchemaExporter.cs:69-83 | Schema files end in `.fbs` and headers in `_generated.h`. Distinct struct names get distinct file names. |
| Exporter.HeadersAt | Plugins/FlatBufferMetaGenerator/Source/FlatBufferGenerator/FlatBufferSchemaExporter.cs:82-83 | The k-th generated header is the k-th struct's name plus `_generated.h`, one per struct. |
| Exporter.CombineKeeps | Plugins/FlatBufferMetaGenerator/Source/FlatBufferGenerator/FlatBufferSchemaExporter.cs:46 | A combined path starts with its first part and ends with its second. |
| Exporter.CombineAllKeeps | Plugins/FlatBufferMetaGenerator/Source/FlatBufferGenerator/FlatBufferSchemaExporter.cs:50-51 | The same holds for a many-part combine. |
| Exporter.IntermediateRelativeDirIs | Plugins/FlatBufferMetaGenerator/Source/FlatBufferGenerator/FlatBufferSchemaExporter.cs:14-20 | The intermediate directory is `Intermediate/FlatBufferMetaGenerator`. |
| Exporter.PathsUnderRoot | Plugins/FlatBufferMetaGenerator/Source/FlatBufferGenerator/FlatBufferSchemaExporter.cs:45-87 | The intermediate directory, the `flatc` path and the aggregator path all lie under the project root. |
| Exporter.PathsKeepFileNames | Plugins/FlatBufferMetaGenerator/Source/FlatBufferGenerator/FlatBufferSchemaExporter.cs:51-87 | The `flatc` path ends in `flatc.exe` and the aggregator path in `FlatBufferAutoIncludes.h`. |
| Exporter.FlatcArgumentsReadBack | Plugins/FlatBufferMetaGenerator/Source/FlatBufferGenerator/FlatBufferSchemaExporter.cs:115 | With quote-free paths, the command line is `--cpp --gen-mutable -o "out" "fbs"`, and both paths read back between the quotes. |
| Exporter.AggregatorPreamble | Plugins/FlatBufferMetaGenerator/Source/FlatBufferGenerator/FlatBufferSchemaExporter.cs:165-169 | The aggregator starts with `#pragma once`, the two fixed comment lines and a blank line, and has four lines per header after that. |
| Exporter.AggregatorLinesAt | Plugins/FlatBufferMetaGenerator/Source/FlatBufferGenerator/FlatBufferSchemaExporter.cs:171-177 | Header k contributes exactly `#if __has_include("h")`, `#include "h"`, `#endif` and a blank line, in input order. |
| Exporter.PreambleSingleLines | Plugins/FlatBufferMetaGenerator/Source/FlatBufferGenerator/FlatBufferSchemaExporter.cs:166-169 | No preamble line holds a newline. |
| Exporter.AggregatorReadBack | Plugins/FlatBufferMetaGenerator/Source/FlatBufferGenerator/FlatBufferSchemaExporter.cs:165-179 | With newline-free header names, splitting the aggregator text at newlines gives back exactly its lines. |
| Exporter.CreateAggregatorHeader | Plugins/FlatBufferMetaGenerator/Source/FlatBufferGenerator/FlatBufferSchemaExporter.cs:148-181 | The builder loop produces exactly the aggregator lines for the given headers. |
| Exporter.AppendIncludeBlock | Plugins/FlatBufferMetaGenerator/Source/FlatBufferGenerator/FlatBufferSchemaExporter.cs:173-176 | Appends the four-line guarded include of one header. |
| Exporter.WriteSchema | Plugins/FlatBufferMetaGenerator/Source/FlatBufferGenerator/FlatBufferSchemaExporter.cs:66-73 | Writes the struct's schema text to `<dir>/<Struct>.fbs`. |
| Exporter.ExportStruct | Plugins/FlatBufferMetaGenerator/Source/FlatBufferGenerator/FlatBufferSchemaExporter.cs:63-77 | Writes one schema, then runs `flatc` on it with the fixed arguments in the intermediate directory and reports the exit code. |
| Exporter.ExportAll | Plugins/FlatBufferMetaGenerator/Source/FlatBufferGenerator/FlatBufferSchemaExporter.cs:61-84 | The struct loop writes each struct's schema in order and stops at the first non-zero exit code, after that struct's schema is written. When every run succeeds, the header list is one `_generated.h` per struct, in order. |
| Exporter.CompileAll | Plugins/FlatBufferMetaGenerator/Source/FlatBufferGenerator/FlatBufferSchemaExporter.cs:61-89 | Fails at the first struct whose compile fails, with all earlier compiles successful. Otherwise it writes every schema, then the aggregator for all headers. |
| Exporter.GenerateReferenceList | Plugins/FlatBufferMetaGenerator/Source/FlatBufferGenerator/FlatBufferSchemaExporter.cs:36-98 | No structs: nothing is written. No `flatc`: the missing path is reported and nothing is written. Otherwise it completes exactly when every compile succeeds, writing the schemas under `Intermediate/FlatBufferMetaGenerator` and the aggregator last. |

## Left out

- Process and file I/O are left out. The model does not check whether the plugin is enabled (`FlatBufferSchemaExporter.cs` line 27) and does not create the directory (line 47). `File.Exists` is a boolean input and `File.WriteAllText` is a returned `FileWrite`.
- Running `flatc` is left out. `Process.Start` with stdout/stderr capture is a function parameter that yields an exit code.
- Logging is left out, because it has no effect on results. This covers session logging, the stdout/stderr logging and `Console.WriteLine` (`FlatBufferSchemaGenerator.cs` line 312).
- The catch-log-rethrow at `FlatBufferSchemaExporter.cs` lines 93-97 is left out. Exceptions are the `FlatcMissing` and `FlatcFailed` outcomes. A failure to start the process, or a write failure, is not modelled.
- The `ProjectDirectory ?? GetCurrentDirectory()` fallback (line 45) is left out. The project root is an input.
- Host reflection traversal is left out: `FindFlatBufferStructs`, `FindFlatBufferMetadata`, `CreateFlatBufferStructInfo`, `ExtractStructName` and `ExtractNamespaceFromPackage` (`FlatBufferSchemaGenerator.cs` lines 30-110). The struct descriptors, and the packages' type trees, are inputs.
- The reflection classes are reduced to what the code reads. Each `switch` case is its own `PropertyKind` variant, so any subclass relation between those classes is not modelled.
- Property metadata is an exact-key map and is never null.
- `ToString() ?? "byte"` for an enum's underlying type is modelled as a plain string.
- `TryGetDefaultValue`: its `isEnum` and `fieldType` parameters are unused in the source, so the model drops them. The quoting of string defaults that its doc comment describes is not in the code and is not modelled.
- Lower-casing and ignore-case comparison cover ASCII letters only. Culture-invariant mapping of other letters is not modelled.
- `HashSet` iteration order is modelled as first-insertion order. This is what the .NET set gives when nothing is removed. No ordering property is claimed beyond that model.
- `AppendLine` is modelled with a single `"\n"`, not the platform newline.
- DecimalText: an explicit enum value is interpolated from a `long` (`FlatBufferSchema.cs` line 90), which .NET writes with the current culture's negative sign. The model always writes `-`, the invariant-culture form.
- FlatcArguments: the command line is stated by the lemma `FlatcArgumentsReadBack`, not by an `ensures` on the function, which keeps the proofs of the export loop small.
- Each list element is rendered to a string before the builder appends it, not interleaved with the appends. The text is the same.
- `Path.Combine` is simplified. It inserts `/` between non-empty parts unless the first part already ends in a separator. Rooted second parts are not handled.
- `FlatbufferTestActor.cpp` (runtime FlatBuffers use) and the build files are not part of this model.
