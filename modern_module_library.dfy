/**
 * ModernModuleLibraryPlugin (lib/library/ModernModuleLibraryPlugin.js): the
 * `export { … }` statement appended at startup, and the concatenation of the
 * root module into one ConcatenatedModule when the compilation's module
 * collection, which the callback receives alongside every chunk, holds at
 * most one module.
 */
module ModernModuleLibrary {
  import opened Wrappers
  import opened EsmSyntax
  import opened ExportsInfo
  import opened Graph

  // ---------------------------------------------------------------------
  // renderStartup

  /** The entry for one export when final names are known: bare when the final name is the export's name. */
  function FinalNameEntry(definitions: FinalNames, info: ExportInfo): string {
    if LookupFinalName(definitions, info) == Some(info.name) then info.name
    else AsEntry(Binding(FinalNameText(definitions, info), info.name))
  }

  function FinalNameEntries(definitions: FinalNames, infos: seq<ExportInfo>): (es: seq<string>)
    ensures |es| == |infos|
    ensures forall i :: 0 <= i < |infos| ==> es[i] == FinalNameEntry(definitions, infos[i])
  {
    if infos == [] then [] else [FinalNameEntry(definitions, infos[0])] + FinalNameEntries(definitions, infos[1..])
  }

  /** The entry for a "harmony export specifier" dependency, as the plugin writes it: `name` or `name as id`. */
  function SpecifierEntry(d: Dependency): string
    requires d.HarmonyExportSpecifier?
  {
    if d.name == d.id then d.name else AsEntry(Binding(d.name, d.id))
  }

  /** The entries of the export specifier dependencies, in dependency order; other kinds give none. */
  function SpecifierEntries(deps: seq<Dependency>): seq<string> {
    if deps == [] then []
    else if deps[0].HarmonyExportSpecifier? then [SpecifierEntry(deps[0])] + SpecifierEntries(deps[1..])
    else SpecifierEntries(deps[1..])
  }

  /** The bindings those entries export (local `name`, exported as `id`), in dependency order. */
  function SpecifierBindings(deps: seq<Dependency>): seq<Binding> {
    if deps == [] then []
    else if deps[0].HarmonyExportSpecifier? then [Binding(deps[0].name, deps[0].id)] + SpecifierBindings(deps[1..])
    else SpecifierBindings(deps[1..])
  }

  function StartupEntries(definitions: Option<FinalNames>, orderedExports: seq<ExportInfo>, deps: seq<Dependency>): seq<string> {
    match definitions
    case Some(defs) => FinalNameEntries(defs, orderedExports)
    case None => SpecifierEntries(deps)
  }

  /** The rendered startup: the source, then one export statement when there is any entry. */
  function Startup(source: string, definitions: Option<FinalNames>, orderedExports: seq<ExportInfo>, deps: seq<Dependency>): string {
    var entries := StartupEntries(definitions, orderedExports, deps);
    source + (if |entries| > 0 then ExportStatement(entries, ", ") else "")
  }

  /**
   * renderStartup: with final names, one entry per export in table order (not
   * filtered by `provided`); without, one per export specifier dependency.
   */
  method RenderStartup(source: string, orderedExports: seq<ExportInfo>, definitions: Option<FinalNames>, dependencies: seq<Dependency>)
    returns (result: string)
    ensures result == Startup(source, definitions, orderedExports, dependencies)
  {
    var exports: seq<string> := [];
    if definitions.Some? {
      var i := 0;
      while i < |orderedExports|
        invariant 0 <= i <= |orderedExports|
        invariant exports == FinalNameEntries(definitions.value, orderedExports[..i])
      {
        var info := orderedExports[i];
        var finalName := LookupFinalName(definitions.value, info);
        var entry;
        if finalName == Some(info.name) {
          entry := finalName.value;
        } else {
          entry := FinalNameText(definitions.value, info) + " as " + info.name;
        }
        assert entry == FinalNameEntry(definitions.value, info);
        assert orderedExports[..i + 1] == orderedExports[..i] + [info];
        assert FinalNameEntries(definitions.value, orderedExports[..i + 1]) ==
          FinalNameEntries(definitions.value, orderedExports[..i]) + [entry];
        exports := exports + [entry];
        i := i + 1;
      }
      assert orderedExports[..i] == orderedExports;
    } else {
      var i := 0;
      while i < |dependencies|
        invariant 0 <= i <= |dependencies|
        invariant exports == SpecifierEntries(dependencies[..i])
      {
        SpecifierEntriesSnoc(dependencies[..i], dependencies[i]);
        assert dependencies[..i + 1] == dependencies[..i] + [dependencies[i]];
        var dep := dependencies[i];
        if dep.HarmonyExportSpecifier? {
          var entry;
          if dep.name == dep.id {
            entry := dep.name;
          } else {
            entry := dep.name + " as " + dep.id;
          }
          assert entry == SpecifierEntry(dep);
          exports := exports + [entry];
        }
        i := i + 1;
      }
      assert dependencies[..i] == dependencies;
    }
    result := source;
    if |exports| > 0 {
      result := result + ("export { " + Join(exports, ", ") + " };\n");
    }
  }

  lemma {:induction false} SpecifierEntriesSnoc(deps: seq<Dependency>, d: Dependency)
    ensures SpecifierEntries(deps + [d]) ==
      SpecifierEntries(deps) + (if d.HarmonyExportSpecifier? then [SpecifierEntry(d)] else [])
  {
    if deps == [] {
      assert deps + [d] == [d];
    } else {
      assert (deps + [d])[1..] == deps[1..] + [d];
      SpecifierEntriesSnoc(deps[1..], d);
    }
  }

  /** Each specifier entry exports its binding; entries and bindings correspond one to one. */
  lemma {:induction false} SpecifierEntriesDenote(deps: seq<Dependency>)
    ensures |SpecifierEntries(deps)| == |SpecifierBindings(deps)|
    ensures forall i :: 0 <= i < |SpecifierBindings(deps)| ==>
      Denotes(SpecifierEntries(deps)[i], SpecifierBindings(deps)[i])
  {
    if deps != [] {
      SpecifierEntriesDenote(deps[1..]);
    }
  }

  /** Every export's final name is a clause name, and so is every export name. */
  predicate FinalNamesAreClauseNames(definitions: FinalNames, infos: seq<ExportInfo>) {
    forall i :: 0 <= i < |infos| ==>
      IsClauseName(infos[i].name) && IsClauseName(FinalNameText(definitions, infos[i]))
  }

  /**
   * With final names the statement lists one binding per export, in table
   * order: each export's final name, exported under the export's own name.
   */
  lemma StartupWithDefinitionsReadsBack(source: string, definitions: FinalNames, orderedExports: seq<ExportInfo>, deps: seq<Dependency>)
    requires orderedExports != []
    requires FinalNamesAreClauseNames(definitions, orderedExports)
    ensures Startup(source, Some(definitions), orderedExports, deps) ==
      source + ExportStatement(FinalNameEntries(definitions, orderedExports), ", ")
    ensures ReadStatement(ExportStatement(FinalNameEntries(definitions, orderedExports), ", ")) ==
      Some(FinalNameBindings(definitions, orderedExports))
    ensures ExportedNames(FinalNameBindings(definitions, orderedExports)) == Names(orderedExports)
  {
    var es := FinalNameEntries(definitions, orderedExports);
    var bs := FinalNameBindings(definitions, orderedExports);
    forall i | 0 <= i < |bs| ensures IsClauseBinding(bs[i]) && Denotes(es[i], bs[i]) {
    }
    StatementReadsBack(es, bs, ", ");
  }

  /** Without final names the statement lists exactly the specifier bindings, in dependency order. */
  lemma StartupWithoutDefinitionsReadsBack(source: string, orderedExports: seq<ExportInfo>, deps: seq<Dependency>)
    requires SpecifierBindings(deps) != []
    requires forall i :: 0 <= i < |SpecifierBindings(deps)| ==> IsClauseBinding(SpecifierBindings(deps)[i])
    ensures Startup(source, None, orderedExports, deps) ==
      source + ExportStatement(SpecifierEntries(deps), ", ")
    ensures ReadStatement(ExportStatement(SpecifierEntries(deps), ", ")) == Some(SpecifierBindings(deps))
  {
    SpecifierEntriesDenote(deps);
    StatementReadsBack(SpecifierEntries(deps), SpecifierBindings(deps), ", ");
  }

  lemma {:induction false} SpecifierEntriesEmpty(deps: seq<Dependency>)
    ensures SpecifierEntries(deps) == [] <==> forall i :: 0 <= i < |deps| ==> !deps[i].HarmonyExportSpecifier?
  {
    if deps != [] {
      SpecifierEntriesEmpty(deps[1..]);
      if !deps[0].HarmonyExportSpecifier? {
        assert forall i :: 1 <= i < |deps| ==> deps[i] == deps[1..][i - 1];
      }
    }
  }

  /**
   * No statement at all (the output is the source itself) exactly when there
   * is no entry: with final names, when the table is empty; without, when no
   * dependency is an export specifier.
   */
  lemma StartupElision(source: string, definitions: Option<FinalNames>, orderedExports: seq<ExportInfo>, deps: seq<Dependency>)
    ensures Startup(source, definitions, orderedExports, deps) == source <==>
      StartupEntries(definitions, orderedExports, deps) == []
    ensures definitions.Some? ==> (StartupEntries(definitions, orderedExports, deps) == [] <==> orderedExports == [])
    ensures definitions.None? ==> (StartupEntries(definitions, orderedExports, deps) == [] <==>
      forall i :: 0 <= i < |deps| ==> !deps[i].HarmonyExportSpecifier?)
  {
    SpecifierEntriesEmpty(deps);
    var entries := StartupEntries(definitions, orderedExports, deps);
    if |entries| > 0 {
      assert |Startup(source, definitions, orderedExports, deps)| > |source|;
    }
  }

  /** An export whose final name is its own name is written bare: `export { value };`. */
  lemma SingleExportWrittenBare(source: string)
    ensures Startup(source, Some(map["value" := "value"]), [ExportInfo("value", Some(true), Used("value"))], []) ==
      source + "export { value };\n"
  {
  }

  // ---------------------------------------------------------------------
  // optimizeChunkModules: runtimes

  /** mergeRuntimeOwned, modelled as set union; `undefined` merged with a runtime is that runtime. */
  function MergeRuntimeOwned(merged: Option<set<string>>, runtime: set<string>): Option<set<string>> {
    match merged
    case None => Some(runtime)
    case Some(m) => Some(m + runtime)
  }

  /** Every runtime name that occurs in any of the runtimes. */
  function UnionOfAll(runtimes: seq<set<string>>): set<string> {
    set i, x | 0 <= i < |runtimes| && x in runtimes[i] :: x
  }

  /** The fold over the root's runtimes, starting from undefined: the union of all of them. */
  method MergeRuntimes(runtimes: seq<set<string>>) returns (merged: Option<set<string>>)
    ensures runtimes == [] ==> merged == None
    ensures runtimes != [] ==> merged == Some(UnionOfAll(runtimes))
  {
    merged := None;
    var i := 0;
    while i < |runtimes|
      invariant 0 <= i <= |runtimes|
      invariant i == 0 ==> merged == None
      invariant i > 0 ==> merged == Some(UnionOfAll(runtimes[..i]))
    {
      ghost var before := runtimes[..i];
      assert runtimes[..i + 1] == before + [runtimes[i]];
      UnionOfAllSnoc(before, runtimes[i]);
      merged := MergeRuntimeOwned(merged, runtimes[i]);
      i := i + 1;
    }
    assert runtimes[..i] == runtimes;
  }

  lemma UnionOfAllSnoc(rs: seq<set<string>>, r: set<string>)
    ensures UnionOfAll(rs + [r]) == UnionOfAll(rs) + r
    ensures rs == [] ==> UnionOfAll(rs + [r]) == r
  {
    var all := rs + [r];
    forall x | x in UnionOfAll(all) ensures x in UnionOfAll(rs) + r {
      var i :| 0 <= i < |all| && x in all[i];
      if i < |rs| {
        assert all[i] == rs[i];
      }
    }
    forall x | x in r ensures x in UnionOfAll(all) {
      assert all[|rs|] == r;
    }
    forall x | x in UnionOfAll(rs) ensures x in UnionOfAll(all) {
      var i :| 0 <= i < |rs| && x in rs[i];
      assert all[i] == rs[i];
    }
  }

  /** The merge does not depend on the order of the runtimes. */
  lemma UnionOfAllOrderFree(rs: seq<set<string>>, ts: seq<set<string>>)
    requires multiset(rs) == multiset(ts)
    ensures UnionOfAll(rs) == UnionOfAll(ts)
  {
    forall x | x in UnionOfAll(rs) ensures x in UnionOfAll(ts) {
      var i :| 0 <= i < |rs| && x in rs[i];
      assert rs[i] in multiset(ts);
      var j :| 0 <= j < |ts| && ts[j] == rs[i];
    }
    forall x | x in UnionOfAll(ts) ensures x in UnionOfAll(rs) {
      var j :| 0 <= j < |ts| && x in ts[j];
      assert ts[j] in multiset(rs);
      var i :| 0 <= i < |rs| && rs[i] == ts[j];
    }
  }

  // ---------------------------------------------------------------------
  // optimizeChunkModules: moving the root's connections

  /** The endpoint of a connection of `root` that is not the root. */
  function OtherModule(c: Connection, root: Module): Module? {
    if c.target == root then c.origin else c.target
  }

  /** A harmony import whose other endpoint is in the configuration: it stays inside the new module. */
  predicate IsInnerConnection(c: Connection, root: Module, configuration: set<Module>) {
    var other := OtherModule(c, root);
    c.dependency.HarmonyImport? && other != null && other in configuration
  }

  /** The filter handed to moveModuleConnections. */
  function KeepConnection(root: Module, configuration: set<Module>): Connection -> bool {
    c => !IsInnerConnection(c, root, configuration)
  }

  /**
   * A connection with the root at exactly one end still touches the root after
   * the move iff it is an inner connection; otherwise the new module takes the
   * root's place. Connections away from the root are untouched.
   */
  lemma MoveKeepsExactlyInnerConnections(c: Connection, root: Module, newModule: Module, configuration: set<Module>)
    requires newModule != root
    ensures c.origin != root && c.target != root ==>
      MoveConnection(c, root, newModule, KeepConnection(root, configuration)) == c
    ensures (c.origin == root) != (c.target == root) ==>
      var m := MoveConnection(c, root, newModule, KeepConnection(root, configuration));
      && m.dependency == c.dependency
      && ((m.origin == root || m.target == root) <==> IsInnerConnection(c, root, configuration))
      && (!IsInnerConnection(c, root, configuration) ==>
            m == (if c.origin == root then c.(origin := newModule) else c.(target := newModule)))
  {
  }

  // ---------------------------------------------------------------------
  // optimizeChunkModules: the callback

  /** The error the build reports; `failedModule` is `err.module`, null when no module is attached. */
  datatype BuildError = BuildError(message: string, failedModule: Module?)

  /** What `newModule.build` reports to its callback (the build itself is not part of this model). */
  datatype BuildResult = Built | BuildFailed(error: BuildError)

  /**
   * How the callback ends: `callback()` when the compilation's module
   * collection holds more than one module (Skipped) or after integration (Integrated), `callback(err)` after a failed
   * build (Failed), or an exception when there is no module to take as root
   * (Thrown: `modules[0]` is undefined and the chunk graph cannot be asked
   * for its runtimes).
   */
  datatype ChunkModulesOutcome = Skipped | Thrown | Failed(error: BuildError) | Integrated

  /** `if (!err.module) err.module = newModule`. */
  function TagError(e: BuildError, newModule: Module): (t: BuildError)
    ensures t.message == e.message
    ensures e.failedModule != null ==> t.failedModule == e.failedModule
    ensures e.failedModule == null ==> t.failedModule == newModule
  {
    if e.failedModule == null then e.(failedModule := newModule) else e
  }

  /**
   * The optimizeChunkModules callback. `rootRuntimes` is what the chunk graph
   * reports for the root, `configuration` what ConcatConfiguration.getModules
   * returns, `build` what the build reports; the new module stands for the
   * one ConcatenatedModule.create returns, and `runtime` is the merged runtime
   * handed to it.
   */
  method OptimizeChunkModules(compilation: Compilation, modules: seq<Module>, rootRuntimes: seq<set<string>>,
                              configuration: set<Module>, build: BuildResult)
    returns (outcome: ChunkModulesOutcome, newModule: Module?, runtime: Option<set<string>>)
    modifies compilation, compilation.moduleGraph
    ensures |modules| > 1 ==> outcome == Skipped
    ensures |modules| == 0 ==> outcome == Thrown
    ensures |modules| != 1 ==> newModule == null && unchanged(compilation, compilation.moduleGraph)
    ensures |modules| == 1 ==> newModule != null && fresh(newModule)
    ensures |modules| == 1 ==> runtime == (if rootRuntimes == [] then None else Some(UnionOfAll(rootRuntimes)))
    ensures |modules| == 1 && build.BuildFailed? ==>
      && outcome == Failed(TagError(build.error, newModule))
      && unchanged(compilation, compilation.moduleGraph)
    ensures |modules| == 1 && build.Built? ==>
      && outcome == Integrated
      && compilation.modules == old(compilation.modules) - {modules[0]} + {newModule}
      && compilation.builtModules ==
           old(compilation.builtModules) + (if configuration * old(compilation.builtModules) != {} then {newModule} else {})
      && |compilation.moduleGraph.connections| == |old(compilation.moduleGraph.connections)|
      && forall i :: 0 <= i < |compilation.moduleGraph.connections| ==>
           compilation.moduleGraph.connections[i] ==
             MoveConnection(old(compilation.moduleGraph.connections)[i], modules[0], newModule,
                            KeepConnection(modules[0], configuration))
  {
    newModule := null;
    runtime := None;
    if |modules| > 1 {
      return Skipped, null, None;
    }
    if |modules| == 0 {
      return Thrown, null, None;
    }
    var currentRoot := modules[0];
    runtime := MergeRuntimes(rootRuntimes);
    var created := new Module.Synthetic();
    newModule := created;
    match build {
      case BuildFailed(err) =>
        outcome := Failed(TagError(err, created));
      case Built =>
        Integrate(compilation, currentRoot, created, configuration);
        outcome := Integrated;
    }
  }

  /** `integrate`: everything the callback changes after a successful build. */
  method Integrate(compilation: Compilation, currentRoot: Module, newModule: Module, configuration: set<Module>)
    requires newModule != currentRoot && newModule !in configuration
    modifies compilation, compilation.moduleGraph
    ensures compilation.modules == old(compilation.modules) - {currentRoot} + {newModule}
    ensures compilation.builtModules ==
      old(compilation.builtModules) + (if configuration * old(compilation.builtModules) != {} then {newModule} else {})
    ensures |compilation.moduleGraph.connections| == |old(compilation.moduleGraph.connections)|
    ensures forall i :: 0 <= i < |compilation.moduleGraph.connections| ==>
      compilation.moduleGraph.connections[i] ==
        MoveConnection(old(compilation.moduleGraph.connections)[i], currentRoot, newModule,
                       KeepConnection(currentRoot, configuration))
  {
    var remaining := configuration;
    while remaining != {}
      invariant remaining <= configuration
      invariant compilation.builtModules ==
        old(compilation.builtModules) +
        (if (configuration - remaining) * old(compilation.builtModules) != {} then {newModule} else {})
      modifies compilation`builtModules
      decreases remaining
    {
      var m :| m in remaining;
      if m in compilation.builtModules {
        compilation.builtModules := compilation.builtModules + {newModule};
      }
      remaining := remaining - {m};
    }
    compilation.modules := compilation.modules - {currentRoot};
    compilation.moduleGraph.MoveModuleConnections(currentRoot, newModule, KeepConnection(currentRoot, configuration));
    compilation.modules := compilation.modules + {newModule};
  }
}
