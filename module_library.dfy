/**
 * ModuleLibraryPlugin (lib/library/ModuleLibraryPlugin.js): whether the
 * final-name fast path may be used, and the startup code that re-exports the
 * entry module's provided exports, either by their final names or through
 * `var` rebindings of the exports object.
 */
module ModuleLibrary {
  import opened Wrappers
  import opened EsmSyntax
  import opened ExportsInfo

  // ---------------------------------------------------------------------
  // The exportsDefinitions tap

  /** `optimization.splitChunks`: unset, `false`, or an options object (truthy). */
  datatype SplitChunks = SplitChunksUnset | SplitChunksDisabled | SplitChunksOptions

  datatype OptimizationOptions = OptimizationOptions(splitChunks: SplitChunks)

  predicate SplitChunksEnabled(optimization: Option<OptimizationOptions>) {
    optimization.Some? && optimization.value.splitChunks == SplitChunksOptions
  }

  /** The tap answers `true` (use final names) unless split chunks are on, and `undefined` otherwise; never `false`. */
  function ExportsDefinitions(optimization: Option<OptimizationOptions>): (r: Option<bool>)
    ensures r != Some(false)
    ensures r == Some(true) <==> !SplitChunksEnabled(optimization)
    ensures r == None <==> SplitChunksEnabled(optimization)
  {
    if !SplitChunksEnabled(optimization) then Some(true) else None
  }

  // ---------------------------------------------------------------------
  // renderStartup

  /** `RuntimeGlobals.exports`, the name of the exports object in the bundle. */
  const ExportsObject: string := "__webpack_exports__"

  /** The statement an async module starts with: `__webpack_exports__ = await __webpack_exports__;`. */
  const AwaitExports: string := ExportsObject + " = await " + ExportsObject + ";\n"

  /** The exports whose `provided` is truthy, in table order. */
  function ProvidedExports(infos: seq<ExportInfo>): seq<ExportInfo> {
    if infos == [] then []
    else if IsProvided(infos[0]) then [infos[0]] + ProvidedExports(infos[1..])
    else ProvidedExports(infos[1..])
  }

  /** The exports that are kept are exactly the provided ones, and nothing is added. */
  lemma {:induction false} ProvidedExportsAreTheProvided(infos: seq<ExportInfo>)
    ensures |ProvidedExports(infos)| <= |infos|
    ensures forall e :: e in ProvidedExports(infos) <==> e in infos && IsProvided(e)
    ensures ProvidedExports(infos) == infos <==> forall i :: 0 <= i < |infos| ==> IsProvided(infos[i])
  {
    if infos != [] {
      ProvidedExportsAreTheProvided(infos[1..]);
      if !IsProvided(infos[0]) {
        assert infos[0] !in ProvidedExports(infos);
      } else {
        assert forall i :: 1 <= i < |infos| ==> infos[i] == infos[1..][i - 1];
      }
    }
  }

  /** The final-name branch: the source, then `finalName as name` for each provided export, joined by ",\n". */
  function FinalNameStartup(source: string, definitions: FinalNames, orderedExports: seq<ExportInfo>): string {
    var entries := AsEntries(FinalNameBindings(definitions, ProvidedExports(orderedExports)));
    source + (if |entries| > 0 then ExportStatement(entries, ",\n") else "")
  }

  /** The local `var` a provided export is rebound to: the exports object's name and the identifier of the export name. */
  function VarName(toIdentifier: string -> string, info: ExportInfo): string {
    ExportsObject + toIdentifier(info.name)
  }

  /** `var <varName> = __webpack_exports__<propertyAccess([usedName])>;` */
  function VarLine(toIdentifier: string -> string, propertyAccess: seq<UsedName> -> string, info: ExportInfo): string {
    "var " + VarName(toIdentifier, info) + " = " + ExportsObject + propertyAccess([info.usedName]) + ";\n"
  }

  function VarLines(toIdentifier: string -> string, propertyAccess: seq<UsedName> -> string, infos: seq<ExportInfo>): (lines: seq<string>)
    ensures |lines| == |infos|
    ensures forall i :: 0 <= i < |infos| ==> lines[i] == VarLine(toIdentifier, propertyAccess, infos[i])
  {
    if infos == [] then [] else [VarLine(toIdentifier, propertyAccess, infos[0])] + VarLines(toIdentifier, propertyAccess, infos[1..])
  }

  function VarBindings(toIdentifier: string -> string, infos: seq<ExportInfo>): (bs: seq<Binding>)
    ensures |bs| == |infos|
    ensures forall i :: 0 <= i < |infos| ==> bs[i] == Binding(VarName(toIdentifier, infos[i]), infos[i].name)
  {
    if infos == [] then [] else [Binding(VarName(toIdentifier, infos[0]), infos[0].name)] + VarBindings(toIdentifier, infos[1..])
  }

  function Concat(lines: seq<string>): string {
    if lines == [] then "" else lines[0] + Concat(lines[1..])
  }

  /**
   * The fallback branch: the source, the await statement for an async module,
   * one `var` line per provided export, then `varName as name` entries joined by ", ".
   */
  function FallbackStartup(source: string, orderedExports: seq<ExportInfo>, isAsync: bool,
                           toIdentifier: string -> string, propertyAccess: seq<UsedName> -> string): string {
    var provided := ProvidedExports(orderedExports);
    var entries := AsEntries(VarBindings(toIdentifier, provided));
    source + (if isAsync then AwaitExports else "") + Concat(VarLines(toIdentifier, propertyAccess, provided))
      + (if |entries| > 0 then ExportStatement(entries, ", ") else "")
  }

  function Startup(source: string, definitions: Option<FinalNames>, orderedExports: seq<ExportInfo>, isAsync: bool,
                   toIdentifier: string -> string, propertyAccess: seq<UsedName> -> string): string {
    match definitions
    case Some(defs) => FinalNameStartup(source, defs, orderedExports)
    case None => FallbackStartup(source, orderedExports, isAsync, toIdentifier, propertyAccess)
  }

  /**
   * renderStartup. `isAsync` is the module graph's answer for the module;
   * `toIdentifier` and `propertyAccess` are Template.toIdentifier and
   * propertyAccess (neither is part of this model).
   */
  method RenderStartup(source: string, orderedExports: seq<ExportInfo>, definitions: Option<FinalNames>, isAsync: bool,
                       toIdentifier: string -> string, propertyAccess: seq<UsedName> -> string)
    returns (result: string)
    ensures result == Startup(source, definitions, orderedExports, isAsync, toIdentifier, propertyAccess)
  {
    if definitions.Some? {
      result := RenderWithFinalNames(source, orderedExports, definitions.value);
    } else {
      result := RenderWithRebinding(source, orderedExports, isAsync, toIdentifier, propertyAccess);
    }
  }

  /** The branch taken when the module carries `exportsFinalName`. */
  method RenderWithFinalNames(source: string, orderedExports: seq<ExportInfo>, definitions: FinalNames)
    returns (result: string)
    ensures result == FinalNameStartup(source, definitions, orderedExports)
  {
    result := source;
    var exports: seq<string> := [];
    ghost var provided: seq<ExportInfo> := [];
    var i := 0;
    while i < |orderedExports|
      invariant 0 <= i <= |orderedExports|
      invariant provided == ProvidedExports(orderedExports[..i])
      invariant exports == AsEntries(FinalNameBindings(definitions, provided))
    {
      var info := orderedExports[i];
      ProvidedExportsSnoc(orderedExports[..i], info);
      assert orderedExports[..i + 1] == orderedExports[..i] + [info];
      if IsProvided(info) {
        var entry := FinalNameText(definitions, info) + " as " + info.name;
        FinalNameEntriesSnoc(definitions, provided, info);
        exports := exports + [entry];
        provided := provided + [info];
      }
      i := i + 1;
    }
    assert orderedExports[..i] == orderedExports;
    if |exports| > 0 {
      result := result + ExportStatement(exports, ",\n");
    }
  }

  /** The branch taken otherwise: rebind each provided export to a local `var` and export those. */
  method RenderWithRebinding(source: string, orderedExports: seq<ExportInfo>, isAsync: bool,
                             toIdentifier: string -> string, propertyAccess: seq<UsedName> -> string)
    returns (result: string)
    ensures result == FallbackStartup(source, orderedExports, isAsync, toIdentifier, propertyAccess)
  {
    result := source;
    if isAsync {
      result := result + AwaitExports;
    }
    ghost var head := result;
    assert head == source + (if isAsync then AwaitExports else "");
    var exports;
    result, exports := AppendRebindings(result, orderedExports, toIdentifier, propertyAccess);
    ghost var body := Concat(VarLines(toIdentifier, propertyAccess, ProvidedExports(orderedExports)));
    if |exports| > 0 {
      result := result + ExportStatement(exports, ", ");
      assert result == head + body + ExportStatement(exports, ", ");
    } else {
      assert result == head + body + "";
    }
  }

  /** The loop of the rebinding branch: one `var` line per provided export, and the entry that exports it. */
  method AppendRebindings(code: string, orderedExports: seq<ExportInfo>,
                          toIdentifier: string -> string, propertyAccess: seq<UsedName> -> string)
    returns (result: string, exports: seq<string>)
    ensures result == code + Concat(VarLines(toIdentifier, propertyAccess, ProvidedExports(orderedExports)))
    ensures exports == AsEntries(VarBindings(toIdentifier, ProvidedExports(orderedExports)))
  {
    result, exports := code, [];
    ghost var provided: seq<ExportInfo> := [];
    var i := 0;
    while i < |orderedExports|
      invariant 0 <= i <= |orderedExports|
      invariant provided == ProvidedExports(orderedExports[..i])
      invariant exports == AsEntries(VarBindings(toIdentifier, provided))
      invariant result == code + Concat(VarLines(toIdentifier, propertyAccess, provided))
    {
      var info := orderedExports[i];
      ProvidedExportsSnoc(orderedExports[..i], info);
      assert orderedExports[..i + 1] == orderedExports[..i] + [info];
      if IsProvided(info) {
        var varName := ExportsObject + toIdentifier(info.name);
        var line := "var " + varName + " = " + ExportsObject + propertyAccess([info.usedName]) + ";\n";
        VarEntriesSnoc(toIdentifier, propertyAccess, provided, info);
        assert line == VarLine(toIdentifier, propertyAccess, info);
        AppendAssociates(code, Concat(VarLines(toIdentifier, propertyAccess, provided)), line);
        result := result + line;
        exports := exports + [varName + " as " + info.name];
        provided := provided + [info];
      }
      i := i + 1;
    }
    assert orderedExports[..i] == orderedExports;
  }

  lemma AppendAssociates(a: string, b: string, c: string)
    ensures a + b + c == a + (b + c)
  {
  }

  lemma {:induction false} ProvidedExportsSnoc(infos: seq<ExportInfo>, info: ExportInfo)
    ensures ProvidedExports(infos + [info]) == ProvidedExports(infos) + (if IsProvided(info) then [info] else [])
  {
    if infos == [] {
      assert infos + [info] == [info];
    } else {
      assert (infos + [info])[1..] == infos[1..] + [info];
      ProvidedExportsSnoc(infos[1..], info);
    }
  }

  lemma FinalNameEntriesSnoc(definitions: FinalNames, infos: seq<ExportInfo>, info: ExportInfo)
    ensures AsEntries(FinalNameBindings(definitions, infos + [info])) ==
      AsEntries(FinalNameBindings(definitions, infos)) + [FinalNameText(definitions, info) + " as " + info.name]
  {
  }

  lemma {:induction false} ConcatSnoc(lines: seq<string>, line: string)
    ensures Concat(lines + [line]) == Concat(lines) + line
  {
    if lines == [] {
      assert lines + [line] == [line];
    } else {
      assert (lines + [line])[1..] == lines[1..] + [line];
      ConcatSnoc(lines[1..], line);
    }
  }

  lemma VarEntriesSnoc(toIdentifier: string -> string, propertyAccess: seq<UsedName> -> string, infos: seq<ExportInfo>, info: ExportInfo)
    ensures AsEntries(VarBindings(toIdentifier, infos + [info])) ==
      AsEntries(VarBindings(toIdentifier, infos)) + [ExportsObject + toIdentifier(info.name) + " as " + info.name]
    ensures Concat(VarLines(toIdentifier, propertyAccess, infos + [info])) ==
      Concat(VarLines(toIdentifier, propertyAccess, infos)) + VarLine(toIdentifier, propertyAccess, info)
  {
    var l := AsEntries(VarBindings(toIdentifier, infos + [info]));
    var r := AsEntries(VarBindings(toIdentifier, infos)) + [ExportsObject + toIdentifier(info.name) + " as " + info.name];
    forall i | 0 <= i < |l| ensures l[i] == r[i] {
      if i < |infos| {
        assert (infos + [info])[i] == infos[i];
      }
    }
    assert VarLines(toIdentifier, propertyAccess, infos + [info]) ==
      VarLines(toIdentifier, propertyAccess, infos) + [VarLine(toIdentifier, propertyAccess, info)];
    ConcatSnoc(VarLines(toIdentifier, propertyAccess, infos), VarLine(toIdentifier, propertyAccess, info));
  }

  // ---------------------------------------------------------------------
  // What the rendered startup exports

  /**
   * Final-name branch: a statement appears iff some export is provided; it
   * lists, in table order, each provided export's final name under the
   * export's name, always in the `as` form.
   */
  lemma FinalNameStartupReadsBack(source: string, definitions: FinalNames, orderedExports: seq<ExportInfo>)
    requires forall e :: e in ProvidedExports(orderedExports) ==>
      IsClauseName(e.name) && IsClauseName(FinalNameText(definitions, e))
    ensures ProvidedExports(orderedExports) == [] ==> FinalNameStartup(source, definitions, orderedExports) == source
    ensures ProvidedExports(orderedExports) != [] ==>
      var bs := FinalNameBindings(definitions, ProvidedExports(orderedExports));
      && FinalNameStartup(source, definitions, orderedExports) == source + ExportStatement(AsEntries(bs), ",\n")
      && ReadStatement(ExportStatement(AsEntries(bs), ",\n")) == Some(bs)
      && ExportedNames(bs) == Names(ProvidedExports(orderedExports))
  {
    var provided := ProvidedExports(orderedExports);
    ProvidedExportsAreTheProvided(orderedExports);
    if provided != [] {
      var bs := FinalNameBindings(definitions, provided);
      forall i | 0 <= i < |bs| ensures IsClauseBinding(bs[i]) && Denotes(AsEntries(bs)[i], bs[i]) {
        assert provided[i] in provided;
      }
      StatementReadsBack(AsEntries(bs), bs, ",\n");
    }
  }

  /** These names are clause names and `toIdentifier` never yields a delimiter for them. */
  predicate IdentifiersAreClauseSafe(toIdentifier: string -> string, infos: seq<ExportInfo>) {
    forall i :: 0 <= i < |infos| ==>
      IsClauseName(infos[i].name) && forall k :: 0 <= k < |toIdentifier(infos[i].name)| ==> !IsDelimiter(toIdentifier(infos[i].name)[k])
  }

  /** Under IdentifiersAreClauseSafe every rebinding is a binding an export clause can carry. */
  lemma VarBindingsAreClauseBindings(toIdentifier: string -> string, orderedExports: seq<ExportInfo>)
    requires IdentifiersAreClauseSafe(toIdentifier, ProvidedExports(orderedExports))
    ensures var bs := VarBindings(toIdentifier, ProvidedExports(orderedExports));
      forall i :: 0 <= i < |bs| ==> IsClauseBinding(bs[i]) && Denotes(AsEntries(bs)[i], bs[i])
  {
  }

  /**
   * Fallback branch: the await statement (async modules only) comes first,
   * then one `var` line per provided export declaring exactly the local that
   * the export statement then exports under the export's name, in table order;
   * the statement is absent iff no export is provided.
   */
  lemma FallbackStartupLayout(source: string, orderedExports: seq<ExportInfo>, isAsync: bool,
                              toIdentifier: string -> string, propertyAccess: seq<UsedName> -> string)
    requires IdentifiersAreClauseSafe(toIdentifier, ProvidedExports(orderedExports))
    ensures var provided := ProvidedExports(orderedExports);
      var lines := VarLines(toIdentifier, propertyAccess, provided);
      var bs := VarBindings(toIdentifier, provided);
      && |lines| == |bs| == |provided|
      && (forall i :: 0 <= i < |lines| ==>
            lines[i] == "var " + bs[i].local + " = " + ExportsObject + propertyAccess([provided[i].usedName]) + ";\n")
      && (provided == [] ==>
            FallbackStartup(source, orderedExports, isAsync, toIdentifier, propertyAccess) ==
              source + (if isAsync then AwaitExports else ""))
      && (provided != [] ==>
            && FallbackStartup(source, orderedExports, isAsync, toIdentifier, propertyAccess) ==
                 source + (if isAsync then AwaitExports else "") + Concat(lines) + ExportStatement(AsEntries(bs), ", ")
            && ReadStatement(ExportStatement(AsEntries(bs), ", ")) == Some(bs)
            && ExportedNames(bs) == Names(provided))
  {
    var provided := ProvidedExports(orderedExports);
    var bs := VarBindings(toIdentifier, provided);
    if provided != [] {
      VarBindingsAreClauseBindings(toIdentifier, orderedExports);
      assert forall i :: 0 <= i < |bs| ==> IsClauseBinding(bs[i]) && Denotes(AsEntries(bs)[i], bs[i]);
      StatementReadsBack(AsEntries(bs), bs, ", ");
    }
  }
}
