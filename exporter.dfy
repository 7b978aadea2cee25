/**
 * The exporter (FlatBufferSchemaExporter.cs): per struct, one `.fbs` file
 * compiled by `flatc` into a `_generated.h` header, then one aggregator header
 * that includes every generated header behind a `__has_include` guard.
 * Files are modelled as the list of writes the exporter performs, and `flatc`
 * as a function from its arguments to an exit code.
 */
module Exporter {
  import opened Wrappers
  import opened Text
  import opened SchemaModel
  import opened GeneratorTypes
  import opened EnumCollector
  import opened Assembler

  const PluginName := "FlatBufferMetaGenerator"
  const AggregatorFileName := "FlatBufferAutoIncludes.h"
  const FbsExtension := ".fbs"
  const GeneratedSuffix := "_generated.h"

  // ------------------------------------------------------------- file names

  /** `structInfo.StructName + ".fbs"`. */
  function FbsFileName(structName: string): string
  {
    structName + FbsExtension
  }

  /** `structInfo.StructName + "_generated.h"`. */
  function GeneratedHeaderName(structName: string): string
  {
    structName + GeneratedSuffix
  }

  /** Both names end with their fixed suffix, and each determines the struct name it was built from. */
  lemma FileNamesDetermineStruct(a: string, b: string)
    ensures EndsWith(FbsFileName(a), ".fbs") && EndsWith(GeneratedHeaderName(a), "_generated.h")
    ensures FbsFileName(a) == FbsFileName(b) ==> a == b
    ensures GeneratedHeaderName(a) == GeneratedHeaderName(b) ==> a == b
  {
    if FbsFileName(a) == FbsFileName(b) {
      assert a == FbsFileName(a)[..|a|] && b == FbsFileName(b)[..|b|];
    }
    if GeneratedHeaderName(a) == GeneratedHeaderName(b) {
      assert a == GeneratedHeaderName(a)[..|a|] && b == GeneratedHeaderName(b)[..|b|];
    }
  }

  /** The generated header of each struct, in struct order. */
  function Headers(structs: seq<StructInfo>): (headers: seq<string>)
    ensures |headers| == |structs|
  {
    if structs == [] then []
    else Headers(structs[..|structs| - 1]) + [GeneratedHeaderName(structs[|structs| - 1].structName)]
  }

  lemma {:induction false} HeadersAt(structs: seq<StructInfo>, k: nat)
    requires k < |structs|
    ensures Headers(structs)[k] == GeneratedHeaderName(structs[k].structName)
  {
    var n := |structs| - 1;
    if k < n {
      assert structs[..n][k] == structs[k];
      HeadersAt(structs[..n], k);
    }
  }

  /** The header list is determined element by element. */
  lemma HeadersPointwise(structs: seq<StructInfo>, headers: seq<string>)
    requires |headers| == |structs|
    requires forall j {:trigger headers[j]} :: 0 <= j < |structs| ==> headers[j] == GeneratedHeaderName(structs[j].structName)
    ensures headers == Headers(structs)
  {
    forall j | 0 <= j < |structs|
      ensures headers[j] == Headers(structs)[j]
    {
      HeadersAt(structs, j);
    }
  }

  /**
   * `Path.Combine(a, b)` for a relative `b`: a separator is inserted unless
   * `a` is empty or already ends with one.
   */
  function Combine(a: string, b: string): string
  {
    if a == "" then b
    else if b == "" then a
    else if a[|a| - 1] == '/' || a[|a| - 1] == '\\' then a + b
    else a + "/" + b
  }

  /** `Path.Combine` over several parts, folded from the left. */
  function CombineAll(parts: seq<string>): string
  {
    if parts == [] then "" else Combine(CombineAll(parts[..|parts| - 1]), parts[|parts| - 1])
  }

  /** `Intermediate/FlatBufferMetaGenerator`, relative to the project. */
  const IntermediateRelativeDir := Combine("Intermediate", PluginName)

  /** `<projectRoot>/Intermediate/FlatBufferMetaGenerator`. */
  function IntermediateDir(projectRoot: string): string
  {
    Combine(projectRoot, IntermediateRelativeDir)
  }

  /** `<projectRoot>/Plugins/FlatBufferMetaGenerator/Source/ThirdParty/flatc.exe`. */
  function FlatcPath(projectRoot: string): string
  {
    CombineAll([CombineAll([projectRoot, "Plugins", PluginName, "Source"]), "ThirdParty", "flatc.exe"])
  }

  /** `<projectRoot>/Source/TestingFlatBuffers/FlatBufferAutoIncludes.h`. */
  function AggregatorPath(projectRoot: string): string
  {
    CombineAll([projectRoot, "Source", "TestingFlatBuffers", AggregatorFileName])
  }

  /** `Path.Combine` keeps its first part as a prefix and ends with its second. */
  lemma CombineKeeps(a: string, b: string)
    ensures |a| <= |Combine(a, b)| && Combine(a, b)[..|a|] == a
    ensures EndsWith(Combine(a, b), b)
  {
  }

  lemma {:induction false} CombineAllKeeps(parts: seq<string>)
    requires |parts| >= 1
    ensures |parts[0]| <= |CombineAll(parts)| && CombineAll(parts)[..|parts[0]|] == parts[0]
    ensures EndsWith(CombineAll(parts), parts[|parts| - 1])
  {
    var n := |parts| - 1;
    CombineKeeps(CombineAll(parts[..n]), parts[n]);
    if n >= 1 {
      CombineAllKeeps(parts[..n]);
      var prev := CombineAll(parts[..n]);
      assert CombineAll(parts)[..|prev|] == prev;
      assert CombineAll(parts)[..|parts[0]|] == prev[..|parts[0]|];
    }
  }

  lemma IntermediateRelativeDirIs()
    ensures IntermediateRelativeDir == "Intermediate/FlatBufferMetaGenerator"
  {
    assert "Intermediate"[11] == 'e';
  }

  /** The intermediate directory, the compiler and the aggregator all lie under the project root. */
  lemma PathsUnderRoot(projectRoot: string)
    ensures |projectRoot| <= |IntermediateDir(projectRoot)| && IntermediateDir(projectRoot)[..|projectRoot|] == projectRoot
    ensures |projectRoot| <= |FlatcPath(projectRoot)| && FlatcPath(projectRoot)[..|projectRoot|] == projectRoot
    ensures |projectRoot| <= |AggregatorPath(projectRoot)| && AggregatorPath(projectRoot)[..|projectRoot|] == projectRoot
  {
    CombineKeeps(projectRoot, IntermediateRelativeDir);
    var pluginSource := CombineAll([projectRoot, "Plugins", PluginName, "Source"]);
    CombineAllKeeps([projectRoot, "Plugins", PluginName, "Source"]);
    CombineAllKeeps([pluginSource, "ThirdParty", "flatc.exe"]);
    assert FlatcPath(projectRoot)[..|projectRoot|] == FlatcPath(projectRoot)[..|pluginSource|][..|projectRoot|];
    CombineAllKeeps([projectRoot, "Source", "TestingFlatBuffers", AggregatorFileName]);
  }

  /** The compiler and the aggregator keep their file names. */
  lemma PathsKeepFileNames(projectRoot: string)
    ensures EndsWith(FlatcPath(projectRoot), "flatc.exe")
    ensures EndsWith(AggregatorPath(projectRoot), AggregatorFileName)
  {
    var pluginSource := CombineAll([projectRoot, "Plugins", PluginName, "Source"]);
    CombineAllKeeps([pluginSource, "ThirdParty", "flatc.exe"]);
    CombineAllKeeps([projectRoot, "Source", "TestingFlatBuffers", AggregatorFileName]);
  }

  // -------------------------------------------------------- the flatc call

  /** The command line handed to `flatc`: C++ output with mutable accessors, into `outDir`. */
  function FlatcArguments(outDir: string, fbsPath: string): string
  {
    "--cpp --gen-mutable -o " + "\"" + outDir + "\"" + " " + "\"" + fbsPath + "\""
  }

  /** With quote-free paths the two quoted arguments read back exactly. */
  lemma FlatcArgumentsReadBack(outDir: string, fbsPath: string)
    requires '"' !in outDir && '"' !in fbsPath
    ensures Split(FlatcArguments(outDir, fbsPath), "\"") == ["--cpp --gen-mutable -o ", outDir, " ", fbsPath, ""]
  {
    var q := "\"";
    var opts := "--cpp --gen-mutable -o ";
    assert '"' !in opts;
    var last := fbsPath + q + "";
    var third := " " + q + last;
    var second := outDir + q + third;
    assert FlatcArguments(outDir, fbsPath) == opts + q + second;
    assert Split("", q) == [""];
    SplitAfterPart(fbsPath, q, "");
    assert Split(last, q) == [fbsPath, ""];
    SplitAfterPart(" ", q, last);
    assert Split(third, q) == [" ", fbsPath, ""];
    SplitAfterPart(outDir, q, third);
    assert Split(second, q) == [outDir, " ", fbsPath, ""];
    SplitAfterPart(opts, q, second);
  }

  /** `p.ExitCode != 0` is a failure. */
  predicate FlatcSucceeded(exitCode: int)
  {
    exitCode == 0
  }

  // ------------------------------------------------------ aggregator header

  /**
   * `#pragma once`, the two fixed comment lines, and a blank line. Each comment
   * line is the source's single literal written in a few pieces: the verifier
   * checks that a short literal holds no newline far more cheaply than a long one.
   */
  const Preamble := ["#pragma once",
                     "// Auto-generated " + "aggregator of all " + "FlatBuffer code",
                     "// DO NOT manually " + "edit this file; " + "it is re-generated " + "each build.",
                     ""]

  /** The four lines guarding the inclusion of one generated header. */
  function IncludeBlock(header: string): seq<string>
  {
    ["#if __has_include(\"" + header + "\")", "#include \"" + header + "\"", "#endif", ""]
  }

  /** The include blocks of every header, in header order. */
  function IncludeBlocks(headers: seq<string>): (lines: seq<string>)
    ensures |lines| == 4 * |headers|
  {
    if headers == [] then [] else IncludeBlocks(headers[..|headers| - 1]) + IncludeBlock(headers[|headers| - 1])
  }

  /** The lines of `FlatBufferAutoIncludes.h`. */
  function AggregatorLines(headers: seq<string>): seq<string>
  {
    Preamble + IncludeBlocks(headers)
  }

  /** The aggregator opens with the four preamble lines and has four more lines per header. */
  lemma AggregatorPreamble(headers: seq<string>)
    ensures |AggregatorLines(headers)| == 4 + 4 * |headers|
    ensures AggregatorLines(headers)[..4] == Preamble
  {
  }

  /** Lines `4 + 4k` to `7 + 4k` of the aggregator are the include block of the k-th header. */
  lemma {:induction false} AggregatorLinesAt(headers: seq<string>, k: nat)
    requires k < |headers|
    ensures AggregatorLines(headers)[4 + 4 * k..8 + 4 * k] == IncludeBlock(headers[k])
  {
    var n := |headers| - 1;
    var blocks := IncludeBlocks(headers);
    assert AggregatorLines(headers)[4 + 4 * k..8 + 4 * k] == blocks[4 * k..4 * k + 4];
    if k < n {
      assert headers[..n][k] == headers[k];
      AggregatorLinesAt(headers[..n], k);
      var before := IncludeBlocks(headers[..n]);
      assert blocks[4 * k..4 * k + 4] == before[4 * k..4 * k + 4];
      assert AggregatorLines(headers[..n])[4 + 4 * k..8 + 4 * k] == before[4 * k..4 * k + 4];
    } else {
      assert blocks[4 * k..4 * k + 4] == IncludeBlock(headers[k]);
    }
  }

  /** `CreateAggregatorHeader`: the preamble, then one guarded include per header, each line ended by a newline. */
  method CreateAggregatorHeader(generatedHeaderNames: seq<string>) returns (text: string)
    ensures text == Unlines(AggregatorLines(generatedHeaderNames))
  {
    var sb := "";
    for p := 0 to |Preamble|
      invariant sb == Unlines(Preamble[..p])
    {
      AppendLine("", Preamble[..p], Preamble[p]);
      assert Preamble[..p + 1] == Preamble[..p] + [Preamble[p]];
      sb := sb + (Preamble[p] + "\n");
    }
    assert Preamble[..|Preamble|] == Preamble;
    for i := 0 to |generatedHeaderNames|
      invariant sb == Unlines(Preamble) + Unlines(IncludeBlocks(generatedHeaderNames[..i]))
    {
      var headerFile := generatedHeaderNames[i];
      assert generatedHeaderNames[..i + 1][..i] == generatedHeaderNames[..i];
      UnlinesAppend(IncludeBlocks(generatedHeaderNames[..i]), IncludeBlock(headerFile));
      sb := AppendIncludeBlock(sb, headerFile);
      AppendAssoc(Unlines(Preamble), Unlines(IncludeBlocks(generatedHeaderNames[..i])), Unlines(IncludeBlock(headerFile)));
    }
    assert generatedHeaderNames[..|generatedHeaderNames|] == generatedHeaderNames;
    UnlinesAppend(Preamble, IncludeBlocks(generatedHeaderNames));
    text := sb;
  }

  /** The four `AppendLine` calls for one header. */
  method AppendIncludeBlock(sb: string, headerFile: string) returns (r: string)
    ensures r == sb + Unlines(IncludeBlock(headerFile))
  {
    var block := IncludeBlock(headerFile);
    r := sb;
    for j := 0 to 4
      invariant r == sb + Unlines(block[..j])
    {
      AppendLine(sb, block[..j], block[j]);
      assert block[..j + 1] == block[..j] + [block[j]];
      r := r + (block[j] + "\n");
    }
    assert block[..4] == block;
  }

  /** No line of `lines` holds a newline. */
  ghost predicate SingleLines(lines: seq<string>)
  {
    forall m :: 0 <= m < |lines| ==> '\n' !in lines[m]
  }

  lemma SingleLinesConcat(a: seq<string>, b: seq<string>)
    requires SingleLines(a) && SingleLines(b)
    ensures SingleLines(a + b)
  {
    forall m | 0 <= m < |a + b|
      ensures '\n' !in (a + b)[m]
    {
      if m >= |a| {
        assert (a + b)[m] == b[m - |a|];
      }
    }
  }

  lemma GeneratedNoticeSingleLine()
    ensures '\n' !in "// Auto-generated " + "aggregator of all " + "FlatBuffer code"
  {
    assert '\n' !in "// Auto-generated ";
    assert '\n' !in "aggregator of all ";
    assert '\n' !in "FlatBuffer code";
  }

  lemma EditWarningSingleLine()
    ensures '\n' !in "// DO NOT manually " + "edit this file; " + "it is re-generated " + "each build."
  {
    assert '\n' !in "// DO NOT manually ";
    assert '\n' !in "edit this file; ";
    assert '\n' !in "it is re-generated ";
    assert '\n' !in "each build.";
  }

  lemma PreambleSingleLines()
    ensures SingleLines(Preamble)
  {
    GeneratedNoticeSingleLine();
    EditWarningSingleLine();
    assert '\n' !in Preamble[0];
  }

  /** With a newline-free header name, no line of its include block holds a newline. */
  lemma IncludeBlockSingleLines(header: string)
    requires '\n' !in header
    ensures SingleLines(IncludeBlock(header))
  {
    assert '\n' !in "#if __has_include(\"";
    assert '\n' !in "\")";
    assert '\n' !in "#include \"";
    assert '\n' !in "\"";
  }

  lemma {:induction false} IncludeBlocksSingleLines(headers: seq<string>)
    requires forall k :: 0 <= k < |headers| ==> '\n' !in headers[k]
    ensures SingleLines(IncludeBlocks(headers))
  {
    if headers != [] {
      var n := |headers| - 1;
      IncludeBlocksSingleLines(headers[..n]);
      IncludeBlockSingleLines(headers[n]);
      SingleLinesConcat(IncludeBlocks(headers[..n]), IncludeBlock(headers[n]));
    }
  }

  /** With newline-free header names, splitting the text on newlines gives back exactly the aggregator lines. */
  lemma AggregatorReadBack(headers: seq<string>)
    requires forall k :: 0 <= k < |headers| ==> '\n' !in headers[k]
    ensures Split(Unlines(AggregatorLines(headers)), "\n") == AggregatorLines(headers) + [""]
  {
    PreambleSingleLines();
    IncludeBlocksSingleLines(headers);
    SingleLinesConcat(Preamble, IncludeBlocks(headers));
    SplitUnlines(AggregatorLines(headers));
  }

  // ------------------------------------------------------------- the export

  /** One file the exporter writes. */
  datatype FileWrite = FileWrite(path: string, content: string)

  /** How an export run ends; the two failures are the exceptions the exporter throws. */
  datatype Outcome =
    | NothingToDo
    | FlatcMissing(flatcPath: string)
    | FlatcFailed(writes: seq<FileWrite>, exitCode: int)
    | Completed(writes: seq<FileWrite>)

  /**
   * `content` is the text of the schema assembled for `s` with the enums
   * `enumInfos`. It is stated through the assembled document so that the text
   * is expanded only where a document's text is being compared.
   */
  ghost predicate IsSchemaText(content: string, s: StructInfo, enumInfos: seq<EnumInfo>)
  {
    forall d :: d == AssembleDocument(s, enumInfos) ==> content == DocumentText(d)
  }

  lemma SchemaTextIs(content: string, s: StructInfo, enumInfos: seq<EnumInfo>)
    ensures IsSchemaText(content, s, enumInfos) <==> content == DocumentText(AssembleDocument(s, enumInfos))
  {
  }

  /** `w` is the `.fbs` file of `s` in `dir`: named after the struct and holding its schema. */
  ghost predicate WroteSchema(w: FileWrite, s: StructInfo, enumInfos: seq<EnumInfo>, dir: string)
  {
    w.path == Combine(dir, FbsFileName(s.structName)) && IsSchemaText(w.content, s, enumInfos)
  }

  /** Each of `writes` that has a struct at its position is the schema of that struct. */
  ghost predicate WroteSchemas(writes: seq<FileWrite>, structs: seq<StructInfo>, enumInfos: seq<EnumInfo>, dir: string)
  {
    forall j {:trigger writes[j]} :: 0 <= j < |writes| && j < |structs| ==>
      WroteSchema(writes[j], structs[j], enumInfos, dir)
  }

  lemma WroteSchemasSnoc(writes: seq<FileWrite>, write: FileWrite, structs: seq<StructInfo>,
                         enumInfos: seq<EnumInfo>, dir: string)
    requires WroteSchemas(writes, structs, enumInfos, dir)
    requires |writes| < |structs| ==> WroteSchema(write, structs[|writes|], enumInfos, dir)
    ensures WroteSchemas(writes + [write], structs, enumInfos, dir)
  {
    var w := writes + [write];
    forall j | 0 <= j < |w| && j < |structs|
      ensures WroteSchema(w[j], structs[j], enumInfos, dir)
    {
      if j < |writes| {
        assert w[j] == writes[j];
      } else {
        assert w[j] == write;
      }
    }
  }

  /** The exit code of `flatc`, run in `dir` on the schema of `s` written there. */
  function ExitCodeOf(flatc: (string, string, string) -> int, flatcExePath: string, dir: string, s: StructInfo): int
  {
    flatc(flatcExePath, FlatcArguments(dir, Combine(dir, FbsFileName(s.structName))), dir)
  }

  /** Builds the schema of one struct and writes it into `dir`. */
  method WriteSchema(s: StructInfo, enumInfos: seq<EnumInfo>, dir: string) returns (write: FileWrite)
    ensures WroteSchema(write, s, enumInfos, dir)
  {
    var fbsContent := BuildSingleStructFbs(s, enumInfos);
    var fbsFileName := FbsFileName(s.structName);
    var fbsFullPath := Combine(dir, fbsFileName);
    write := FileWrite(fbsFullPath, fbsContent);
  }

  /**
   * One iteration of the export loop: build and write the schema of `s`, then
   * run `flatc` on it (`RunFlatcToGenerateCode`).
   */
  method ExportStruct(s: StructInfo, enumInfos: seq<EnumInfo>, dir: string, flatcExePath: string,
                      flatc: (string, string, string) -> int)
    returns (write: FileWrite, exitCode: int)
    ensures WroteSchema(write, s, enumInfos, dir)
    ensures exitCode == ExitCodeOf(flatc, flatcExePath, dir, s)
  {
    write := WriteSchema(s, enumInfos, dir);
    exitCode := flatc(flatcExePath, FlatcArguments(dir, write.path), dir);
  }

  /** The schemas of the first `n` structs compiled without error. */
  ghost predicate FirstCompiled(n: int, structs: seq<StructInfo>, flatc: (string, string, string) -> int,
                                flatcExePath: string, dir: string)
  {
    forall j {:trigger ExitCodeOf(flatc, flatcExePath, dir, structs[j])} :: 0 <= j < n && j < |structs| ==>
      FlatcSucceeded(ExitCodeOf(flatc, flatcExePath, dir, structs[j]))
  }

  /**
   * The `foreach` over the structs: each schema is written, then compiled; the
   * first failing compilation ends the loop with its exit code in `failure`.
   * Otherwise the generated header of every struct is collected in order.
   */
  method ExportAll(structs: seq<StructInfo>, enumInfos: seq<EnumInfo>, dir: string, flatcExePath: string,
                   flatc: (string, string, string) -> int)
    returns (writes: seq<FileWrite>, generatedHeaders: seq<string>, failure: Option<int>)
    ensures |writes| <= |structs|
    ensures WroteSchemas(writes, structs, enumInfos, dir)
    ensures failure.None? ==>
              && |writes| == |structs|
              && generatedHeaders == Headers(structs)
              && FirstCompiled(|structs|, structs, flatc, flatcExePath, dir)
    ensures failure.Some? ==>
              && 0 < |writes|
              && failure.value == ExitCodeOf(flatc, flatcExePath, dir, structs[|writes| - 1])
              && !FlatcSucceeded(failure.value)
              && FirstCompiled(|writes| - 1, structs, flatc, flatcExePath, dir)
  {
    writes := [];
    generatedHeaders := [];
    for i := 0 to |structs|
      invariant |writes| == i
      invariant WroteSchemas(writes, structs, enumInfos, dir)
      invariant |generatedHeaders| == i
      invariant forall j {:trigger generatedHeaders[j]} :: 0 <= j < i ==>
                  generatedHeaders[j] == GeneratedHeaderName(structs[j].structName)
      invariant FirstCompiled(i, structs, flatc, flatcExePath, dir)
    {
      var structInfo := structs[i];
      var write, exitCode := ExportStruct(structInfo, enumInfos, dir, flatcExePath, flatc);
      WroteSchemasSnoc(writes, write, structs, enumInfos, dir);
      writes := writes + [write];
      if !FlatcSucceeded(exitCode) {
        return writes, generatedHeaders, Some(exitCode);
      }
      generatedHeaders := generatedHeaders + [GeneratedHeaderName(structInfo.structName)];
    }
    HeadersPointwise(structs, generatedHeaders);
    failure := None;
  }

  /**
   * The run stopped at struct `f`: the schemas of structs `0..f` were written in
   * order, every compilation before `f` succeeded and the one of `f` gave the
   * non-zero `exitCode`.
   */
  ghost predicate FailedAt(f: int, writes: seq<FileWrite>, exitCode: int, structs: seq<StructInfo>,
                           enumInfos: seq<EnumInfo>, flatc: (string, string, string) -> int,
                           flatcExePath: string, dir: string)
  {
    && 0 <= f < |structs|
    && |writes| == f + 1
    && WroteSchemas(writes, structs, enumInfos, dir)
    && exitCode == ExitCodeOf(flatc, flatcExePath, dir, structs[f])
    && !FlatcSucceeded(exitCode)
    && FirstCompiled(f, structs, flatc, flatcExePath, dir)
  }

  /**
   * The export once `flatc.exe` is known to be present: the schemas are written
   * into `dir` and compiled in struct order until one compilation fails; when
   * none fails the aggregator, including every generated header, is written
   * last, to `aggregatorPath`.
   */
  method CompileAll(structs: seq<StructInfo>, enumInfos: seq<EnumInfo>, dir: string, flatcExePath: string,
                    aggregatorPath: string, flatc: (string, string, string) -> int)
    returns (outcome: Outcome)
    ensures outcome.FlatcFailed? || outcome.Completed?
    ensures outcome.FlatcFailed? ==>
              exists f :: FailedAt(f, outcome.writes, outcome.exitCode, structs, enumInfos, flatc, flatcExePath, dir)
    ensures outcome.Completed? <==> FirstCompiled(|structs|, structs, flatc, flatcExePath, dir)
    ensures outcome.Completed? ==>
              && |outcome.writes| == |structs| + 1
              && WroteSchemas(outcome.writes, structs, enumInfos, dir)
              && outcome.writes[|structs|] == FileWrite(aggregatorPath, Unlines(AggregatorLines(Headers(structs))))
  {
    var writes, generatedHeaders, failure := ExportAll(structs, enumInfos, dir, flatcExePath, flatc);
    if failure.Some? {
      var f := |writes| - 1;
      assert FailedAt(f, writes, failure.value, structs, enumInfos, flatc, flatcExePath, dir);
      return FlatcFailed(writes, failure.value);
    }
    var aggregator := CreateAggregatorHeader(generatedHeaders);
    var aggregatorWrite := FileWrite(aggregatorPath, aggregator);
    WroteSchemasSnoc(writes, aggregatorWrite, structs, enumInfos, dir);
    writes := writes + [aggregatorWrite];
    outcome := Completed(writes);
  }

  /**
   * `GenerateReferenceList` once the plugin is known to be enabled: `structs`
   * are the structs found in the packages, `flatcExists` whether `flatc.exe`
   * is present and `flatc(exe, arguments, workingDir)` the exit code of a run.
   * Nothing is written without structs; a missing compiler stops before any
   * schema is written; otherwise the schemas go to the intermediate directory
   * and the aggregator into the game module, as `CompileAll` says.
   */
  method GenerateReferenceList(packages: seq<Package>, structs: seq<StructInfo>, projectRoot: string,
                               flatcExists: bool, flatc: (string, string, string) -> int)
    returns (outcome: Outcome)
    ensures structs == [] <==> outcome == NothingToDo
    ensures structs != [] && !flatcExists <==> outcome.FlatcMissing?
    ensures outcome.FlatcMissing? ==> outcome.flatcPath == FlatcPath(projectRoot)
    ensures outcome.FlatcFailed? ==>
              exists f :: FailedAt(f, outcome.writes, outcome.exitCode, structs, FoundEnums(packages),
                                   flatc, FlatcPath(projectRoot), IntermediateDir(projectRoot))
    ensures outcome.Completed? <==>
              structs != [] && flatcExists
              && FirstCompiled(|structs|, structs, flatc, FlatcPath(projectRoot), IntermediateDir(projectRoot))
    ensures outcome.Completed? ==>
              && |outcome.writes| == |structs| + 1
              && WroteSchemas(outcome.writes, structs, FoundEnums(packages), IntermediateDir(projectRoot))
              && outcome.writes[|structs|]
                 == FileWrite(AggregatorPath(projectRoot), Unlines(AggregatorLines(Headers(structs))))
  {
    var enumInfos := FindFlatBufferEnums(packages);
    if |structs| == 0 {
      return NothingToDo;
    }
    var intermediateDir := IntermediateDir(projectRoot);
    var flatcExePath := FlatcPath(projectRoot);
    if !flatcExists {
      return FlatcMissing(flatcExePath);
    }
    outcome := CompileAll(structs, enumInfos, intermediateDir, flatcExePath, AggregatorPath(projectRoot), flatc);
  }
}
