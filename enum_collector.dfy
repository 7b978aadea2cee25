/**
 * Enum collection (FlatBufferSchemaGenerator.cs lines 292-370): a pre-order walk
 * over the type tree of every package that appends one `FlatBufferEnumInfo` per
 * enum found, with its enumerator names stripped of C++ scopes and its
 * underlying type renamed to a schema scalar.
 */
module EnumCollector {
  import opened Wrappers
  import opened Text
  import opened GeneratorTypes

  const ScopeSeparator := "::"

  /** `StripScopePrefix`: the last `::`-separated segment of an enumerator name, a suffix of it without `::`. */
  function StripScopePrefix(name: string): (r: string)
    ensures EndsWith(name, r)
    ensures !Contains(r, ScopeSeparator)
  {
    var parts := Split(name, ScopeSeparator);
    JoinSplit(name, ScopeSeparator);
    JoinEndsWithLast(parts, ScopeSeparator);
    SplitPartsAvoidSeparator(name, ScopeSeparator);
    parts[|parts| - 1]
  }

  /** A name without `::` is left as it is. */
  lemma StripScopePrefixUnqualified(name: string)
    requires !Contains(name, ScopeSeparator)
    ensures StripScopePrefix(name) == name
  {
    SplitWithoutOccurrence(name, ScopeSeparator);
  }

  /** A scope without a colon is dropped together with its `::`. */
  lemma StripScopePrefixQualified(scope: string, name: string)
    requires ':' !in scope
    ensures StripScopePrefix(scope + ScopeSeparator + name) == StripScopePrefix(name)
  {
    SplitAfterPart(scope, ScopeSeparator, name);
  }

  /** `MapUnderlyingType`: the enum's underlying integer type, matched ignoring case. */
  function MapUnderlyingType(ueUnderlyingType: string): (r: string)
    ensures r in {"byte", "short", "int", "long"}
  {
    var t := Lower(ueUnderlyingType);
    if t == "uint8" || t == "uint16" || t == "int8" then "byte"
    else if t == "int16" then "short"
    else if t == "uint32" || t == "int32" then "int"
    else if t == "int64" || t == "uint64" then "long"
    else "int"
  }

  /** The mapping looks only at the lower-cased name. */
  lemma MapUnderlyingTypeIgnoresCase(a: string, b: string)
    requires EqualsIgnoreCase(a, b)
    ensures MapUnderlyingType(a) == MapUnderlyingType(b)
  {
  }

  /** The enumerators of one enum, stripped of their scopes, in declaration order. */
  function CleanEnumerants(values: seq<Enumerator>): (r: seq<Enumerator>)
    ensures |r| == |values|
  {
    if values == [] then []
    else
      var v := values[|values| - 1];
      CleanEnumerants(values[..|values| - 1]) + [Enumerator(StripScopePrefix(v.name), v.value)]
  }

  lemma {:induction false} CleanEnumerantsAt(values: seq<Enumerator>, k: nat)
    requires k < |values|
    ensures CleanEnumerants(values)[k] == Enumerator(StripScopePrefix(values[k].name), values[k].value)
  {
    var n := |values| - 1;
    if k < n {
      assert values[..n][k] == values[k];
      CleanEnumerantsAt(values[..n], k);
    }
  }

  /** The record one enum node yields: `SourceName ?? "UnknownEnum"`, the mapped type, the cleaned values. */
  function EnumInfoOf(k: TypeKind): EnumInfo
    requires k.Enum?
  {
    EnumInfo(if k.sourceName.Some? then k.sourceName.value else "UnknownEnum",
             MapUnderlyingType(k.underlyingType), CleanEnumerants(k.values))
  }

  /** Every collected enum has a schema scalar type, and its enumerators keep their values and order without scopes. */
  lemma EnumInfoOfClean(k: TypeKind)
    requires k.Enum?
    ensures EnumInfoOf(k).underlyingType in {"byte", "short", "int", "long"}
    ensures |EnumInfoOf(k).enumerants| == |k.values|
    ensures forall i :: 0 <= i < |k.values| ==>
              && EnumInfoOf(k).enumerants[i].value == k.values[i].value
              && EndsWith(k.values[i].name, EnumInfoOf(k).enumerants[i].name)
              && !Contains(EnumInfoOf(k).enumerants[i].name, ScopeSeparator)
  {
    forall i | 0 <= i < |k.values|
      ensures EnumInfoOf(k).enumerants[i].value == k.values[i].value
      ensures EndsWith(k.values[i].name, EnumInfoOf(k).enumerants[i].name)
      ensures !Contains(EnumInfoOf(k).enumerants[i].name, ScopeSeparator)
    {
      CleanEnumerantsAt(k.values, i);
    }
  }

  /** The enums of one tree in pre-order: the node's own enum first, then each child's in turn. */
  function Collected(t: UhtType): (r: seq<EnumInfo>)
    ensures t.kind.Enum? ==> r != [] && r[0] == EnumInfoOf(t.kind)
    ensures forall i :: 0 <= i < |r| ==> r[i].underlyingType in {"byte", "short", "int", "long"}
    decreases t, 1
  {
    (if t.kind.Enum? then [EnumInfoOf(t.kind)] else []) + CollectedForest(t.children)
  }

  function CollectedForest(ts: seq<UhtType>): (r: seq<EnumInfo>)
    ensures ts == [] ==> r == []
    ensures forall i :: 0 <= i < |r| ==> r[i].underlyingType in {"byte", "short", "int", "long"}
    decreases ts, 0
  {
    if ts == [] then [] else CollectedForest(ts[..|ts| - 1]) + Collected(ts[|ts| - 1])
  }

  /** `FindFlatBufferEnums`: the enums of every top-level type of every package, in order. */
  function FoundEnums(packages: seq<Package>): (r: seq<EnumInfo>)
    ensures forall i :: 0 <= i < |r| ==> r[i].underlyingType in {"byte", "short", "int", "long"}
  {
    if packages == [] then []
    else FoundEnums(packages[..|packages| - 1]) + CollectedForest(packages[|packages| - 1].children)
  }

  // ------------------------------------------------------------ reference walk

  /** The nodes of a tree in pre-order, as an independent statement of the walk. */
  function PreOrder(t: UhtType): seq<TypeKind>
    decreases t, 1
  {
    [t.kind] + PreOrderForest(t.children)
  }

  function PreOrderForest(ts: seq<UhtType>): seq<TypeKind>
    decreases ts, 0
  {
    if ts == [] then [] else PreOrderForest(ts[..|ts| - 1]) + PreOrder(ts[|ts| - 1])
  }

  /** The enum records of a list of nodes, kept in list order and never de-duplicated. */
  function EnumsIn(ks: seq<TypeKind>): seq<EnumInfo>
  {
    if ks == [] then []
    else
      var k := ks[|ks| - 1];
      EnumsIn(ks[..|ks| - 1]) + (if k.Enum? then [EnumInfoOf(k)] else [])
  }

  lemma {:induction false} EnumsInAppend(a: seq<TypeKind>, b: seq<TypeKind>)
    ensures EnumsIn(a + b) == EnumsIn(a) + EnumsIn(b)
    decreases |b|
  {
    if b == [] {
      assert a + b == a;
    } else {
      var n := |b| - 1;
      assert (a + b)[..|a + b| - 1] == a + b[..n];
      EnumsInAppend(a, b[..n]);
    }
  }

  lemma EnumsInOne(k: TypeKind)
    ensures EnumsIn([k]) == if k.Enum? then [EnumInfoOf(k)] else []
  {
    assert [k][..0] == [];
  }

  /** Collection keeps exactly the enum nodes of the pre-order walk, in walk order. */
  lemma {:induction false} CollectedIsPreOrder(t: UhtType)
    ensures Collected(t) == EnumsIn(PreOrder(t))
    decreases t, 1
  {
    CollectedForestIsPreOrder(t.children);
    EnumsInAppend([t.kind], PreOrderForest(t.children));
    EnumsInOne(t.kind);
  }

  lemma {:induction false} CollectedForestIsPreOrder(ts: seq<UhtType>)
    ensures CollectedForest(ts) == EnumsIn(PreOrderForest(ts))
    decreases ts, 0
  {
    if ts != [] {
      var n := |ts| - 1;
      CollectedForestIsPreOrder(ts[..n]);
      CollectedIsPreOrder(ts[n]);
      EnumsInAppend(PreOrderForest(ts[..n]), PreOrder(ts[n]));
    }
  }

  /** `e` is the record of some enum node of `ks`. */
  ghost predicate FromEnumNode(ks: seq<TypeKind>, e: EnumInfo)
  {
    exists j :: 0 <= j < |ks| && ks[j].Enum? && e == EnumInfoOf(ks[j])
  }

  /** Every record the walk keeps comes from an enum node of the walk. */
  lemma {:induction false} EnumsInFromNodes(ks: seq<TypeKind>)
    ensures forall i :: 0 <= i < |EnumsIn(ks)| ==> FromEnumNode(ks, EnumsIn(ks)[i])
  {
    if ks != [] {
      var n := |ks| - 1;
      var prefix := ks[..n];
      EnumsInFromNodes(prefix);
      var tail := if ks[n].Enum? then [EnumInfoOf(ks[n])] else [];
      assert EnumsIn(ks) == EnumsIn(prefix) + tail;
      forall i | 0 <= i < |EnumsIn(ks)|
        ensures FromEnumNode(ks, EnumsIn(ks)[i])
      {
        if i < |EnumsIn(prefix)| {
          assert EnumsIn(ks)[i] == EnumsIn(prefix)[i];
          assert FromEnumNode(prefix, EnumsIn(prefix)[i]);
          var j :| 0 <= j < n && prefix[j].Enum? && EnumsIn(prefix)[i] == EnumInfoOf(prefix[j]);
          assert ks[j] == prefix[j];
        } else {
          assert ks[n].Enum? && EnumsIn(ks)[i] == EnumInfoOf(ks[n]);
        }
      }
    }
  }

  /** Every enum the walk collects has a schema scalar type and enumerator names without `::`. */
  lemma CollectedAreClean(t: UhtType)
    ensures forall e :: e in Collected(t) ==>
              && e.underlyingType in {"byte", "short", "int", "long"}
              && forall i :: 0 <= i < |e.enumerants| ==> !Contains(e.enumerants[i].name, ScopeSeparator)
  {
    CollectedIsPreOrder(t);
    var ks := PreOrder(t);
    EnumsInFromNodes(ks);
    forall e | e in Collected(t)
      ensures e.underlyingType in {"byte", "short", "int", "long"}
      ensures forall i :: 0 <= i < |e.enumerants| ==> !Contains(e.enumerants[i].name, ScopeSeparator)
    {
      var i :| 0 <= i < |EnumsIn(ks)| && EnumsIn(ks)[i] == e;
      assert FromEnumNode(ks, EnumsIn(ks)[i]);
      var j :| 0 <= j < |ks| && ks[j].Enum? && EnumsIn(ks)[i] == EnumInfoOf(ks[j]);
      EnumInfoOfClean(ks[j]);
    }
  }

  /** The enumerator `ECharacterType::AI` of the sample header is collected as `AI`. */
  lemma SampleEnumerator()
    ensures StripScopePrefix("ECharacterType::AI") == "AI"
  {
    assert "ECharacterType::AI" == "ECharacterType" + ScopeSeparator + "AI";
    StripScopePrefixQualified("ECharacterType", "AI");
    SplitWithoutSeparator("AI", ScopeSeparator);
  }

  /** Two enum nodes give two records, even when they are identical: nothing is de-duplicated. */
  lemma NoDeduplication(k: TypeKind)
    requires k.Enum?
    ensures Collected(UhtType(k, [UhtType(k, [])])) == [EnumInfoOf(k), EnumInfoOf(k)]
  {
    var leaf := UhtType(k, []);
    assert CollectedForest([leaf]) == CollectedForest([]) + Collected(leaf);
  }

  // ------------------------------------------------------------------ methods

  /** The `List<FlatBufferEnumInfo>` the walk appends to. */
  class EnumInfoList {
    var Items: seq<EnumInfo>

    constructor ()
      ensures Items == []
    {
      Items := [];
    }

    method Add(e: EnumInfo)
      modifies this
      ensures Items == old(Items) + [e]
    {
      Items := Items + [e];
    }
  }

  /** `GatherEnumsRecursive`: appends the enums of `t` to `outEnums` in pre-order. */
  method GatherEnumsRecursive(t: UhtType, outEnums: EnumInfoList)
    modifies outEnums
    ensures outEnums.Items == old(outEnums.Items) + Collected(t)
    decreases t
  {
    var own: seq<EnumInfo> := [];
    if t.kind.Enum? {
      var enumName := if t.kind.sourceName.Some? then t.kind.sourceName.value else "UnknownEnum";
      var underlyingType := MapUnderlyingType(t.kind.underlyingType);
      var enumerants: seq<Enumerator> := [];
      var values := t.kind.values;
      for i := 0 to |values|
        invariant enumerants == CleanEnumerants(values[..i])
      {
        var cleanedName := StripScopePrefix(values[i].name);
        assert values[..i + 1][..i] == values[..i];
        enumerants := enumerants + [Enumerator(cleanedName, values[i].value)];
      }
      assert values[..|values|] == values;
      own := [EnumInfo(enumName, underlyingType, enumerants)];
      outEnums.Add(own[0]);
    }
    ghost var afterOwn := outEnums.Items;
    assert afterOwn == old(outEnums.Items) + own;
    for i := 0 to |t.children|
      invariant outEnums.Items == afterOwn + CollectedForest(t.children[..i])
    {
      assert t.children[..i + 1][..i] == t.children[..i];
      GatherEnumsRecursive(t.children[i], outEnums);
      AppendAssoc(afterOwn, CollectedForest(t.children[..i]), Collected(t.children[i]));
    }
    assert t.children[..|t.children|] == t.children;
    AppendAssoc(old(outEnums.Items), own, CollectedForest(t.children));
  }

  /** `FindFlatBufferEnums`: walks every top-level type of every package in turn. */
  method FindFlatBufferEnums(packages: seq<Package>) returns (enumInfos: seq<EnumInfo>)
    ensures enumInfos == FoundEnums(packages)
  {
    var list := new EnumInfoList();
    for i := 0 to |packages|
      invariant list.Items == FoundEnums(packages[..i])
    {
      var children := packages[i].children;
      for j := 0 to |children|
        invariant list.Items == FoundEnums(packages[..i]) + CollectedForest(children[..j])
      {
        assert children[..j + 1][..j] == children[..j];
        GatherEnumsRecursive(children[j], list);
        AppendAssoc(FoundEnums(packages[..i]), CollectedForest(children[..j]), Collected(children[j]));
      }
      assert children[..|children|] == children;
      assert packages[..i + 1][..i] == packages[..i];
    }
    assert packages[..|packages|] == packages;
    enumInfos := list.Items;
  }
}
