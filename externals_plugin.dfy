/**
 * ExternalsPlugin of the modern-module library type
 * (lib/library/modern-module/ExternalsPlugin.js): its `finishModules` pass
 * attaches an ExternalModuleImportDependency for every `import()` of an
 * external module and then cuts the "import() raw" connections into the
 * externals.
 */
module ModernModuleExternals {
  import opened Wrappers
  import opened ExternalImport
  import opened Graph

  // ---------------------------------------------------------------------
  // Collecting the external modules

  /** `module?.externalType` is truthy: set, and not the empty string. */
  predicate IsExternal(m: Module) {
    m.externalType.Some? && m.externalType.value != ""
  }

  /** `externalModules`: the external modules among `modules`, in iteration order. */
  function Externals(modules: seq<Module>): seq<Module> {
    if modules == [] then []
    else
      var last := modules[|modules| - 1];
      Externals(modules[..|modules| - 1]) + (if IsExternal(last) then [last] else [])
  }

  /** Exactly the external modules are collected, and nothing else. */
  lemma {:induction false} ExternalsAreTheExternals(modules: seq<Module>)
    ensures |Externals(modules)| <= |modules|
    ensures forall m :: m in Externals(modules) <==> m in modules && IsExternal(m)
    ensures Externals(modules) == modules <==> forall i :: 0 <= i < |modules| ==> IsExternal(modules[i])
  {
    if modules != [] {
      var init := modules[..|modules| - 1];
      var last := modules[|modules| - 1];
      ExternalsAreTheExternals(init);
      assert modules == init + [last];
      if !IsExternal(last) {
        assert |Externals(modules)| < |modules|;
      } else if Externals(modules) == modules {
        assert Externals(init) == Externals(modules)[..|init|] == init;
      }
    }
  }

  /** Collection follows iteration order: the externals of a concatenation are those of each part, in turn. */
  lemma {:induction false} ExternalsConcat(a: seq<Module>, b: seq<Module>)
    ensures Externals(a + b) == Externals(a) + Externals(b)
    decreases |b|
  {
    if b == [] {
      assert a + b == a;
    } else {
      var init := b[..|b| - 1];
      assert (a + b)[..|a + b| - 1] == a + init;
      ExternalsConcat(a, init);
    }
  }

  /** The collecting loop of the finishModules tap: the external modules, in iteration order. */
  method CollectExternalModules(modules: seq<Module>) returns (externalModules: seq<Module>)
    ensures externalModules == Externals(modules)
  {
    externalModules := [];
    var i := 0;
    while i < |modules|
      invariant 0 <= i <= |modules|
      invariant externalModules == Externals(modules[..i])
    {
      assert modules[..i + 1][..i] == modules[..i];
      if IsExternal(modules[i]) {
        externalModules := externalModules + [modules[i]];
      }
      i := i + 1;
    }
    assert modules[..i] == modules;
  }

  // ---------------------------------------------------------------------
  // Attaching the import dependencies

  /** `externalModules.find(m => m.userRequest === request)`, as an index; `|externals|` when nothing matches. */
  function FirstMatch(externals: seq<Module>, request: string): (k: nat)
    ensures k <= |externals|
    ensures k < |externals| ==> externals[k].userRequest == request
    ensures forall i :: 0 <= i < k ==> externals[i].userRequest != request
  {
    if externals == [] then 0
    else if externals[0].userRequest == request then 0
    else 1 + FirstMatch(externals[1..], request)
  }

  /** `deps.filter(dep => dep instanceof ImportRawDependency)`. */
  function RawImports(deps: seq<Dependency>): (raws: seq<Dependency>)
    ensures forall i :: 0 <= i < |raws| ==> raws[i].ImportRaw?
  {
    if deps == [] then []
    else
      var last := deps[|deps| - 1];
      RawImports(deps[..|deps| - 1]) + (if last.ImportRaw? then [last] else [])
  }

  /** The filter keeps exactly the "import() raw" dependencies, in order, and drops every other kind. */
  lemma {:induction false} RawImportsAreTheRawImports(deps: seq<Dependency>)
    ensures |RawImports(deps)| <= |deps|
    ensures forall d :: d in RawImports(deps) <==> d in deps && d.ImportRaw?
    ensures RawImports(deps) == [] <==> forall i :: 0 <= i < |deps| ==> !deps[i].ImportRaw?
  {
    if deps != [] {
      var init := deps[..|deps| - 1];
      var last := deps[|deps| - 1];
      RawImportsAreTheRawImports(init);
      assert deps == init + [last];
      if !last.ImportRaw? && RawImports(init) == [] {
        assert forall i :: 0 <= i < |deps| - 1 ==> deps[i] == init[i];
      }
    }
  }

  /** What one ExternalModuleImportDependency is constructed from: `dep.request`, `target.request`, `dep.range`. */
  datatype Addition = Addition(request: string, targetRequest: string, range: Range)

  /**
   * What the pass does to one module: the additions made, in order, and whether
   * it got through every "import() raw" dependency (`false` when a lookup found
   * no target and reading `target.request` threw).
   */
  datatype Pass = Pass(added: seq<Addition>, complete: bool)

  function Resolve(deps: seq<Dependency>, externals: seq<Module>): Pass {
    if deps == [] then Pass([], true)
    else
      var p := Resolve(deps[..|deps| - 1], externals);
      var d := deps[|deps| - 1];
      if !p.complete || !d.ImportRaw? then p
      else
        var k := FirstMatch(externals, d.request);
        if k == |externals| then Pass(p.added, false)
        else Pass(p.added + [Addition(d.request, externals[k].request, d.range)], true)
  }

  /** The addition for an "import() raw" dependency whose request has a matching external. */
  function AdditionFor(raw: Dependency, externals: seq<Module>): Addition
    requires raw.ImportRaw? && FirstMatch(externals, raw.request) < |externals|
  {
    Addition(raw.request, externals[FirstMatch(externals, raw.request)].request, raw.range)
  }

  /**
   * One addition per "import() raw" dependency, in dependency order, targeting
   * the first external whose userRequest is the dependency's request; other
   * kinds add nothing. The pass gets through iff every such request has a
   * match; otherwise it stops at the first one without a match, keeping the
   * additions made before it.
   */
  lemma {:induction false} ResolveIsOnePerRawImport(deps: seq<Dependency>, externals: seq<Module>)
    ensures var raws := RawImports(deps); var p := Resolve(deps, externals);
      && |p.added| <= |raws|
      && (forall i :: 0 <= i < |p.added| ==>
            FirstMatch(externals, raws[i].request) < |externals| && p.added[i] == AdditionFor(raws[i], externals))
      && (p.complete <==> |p.added| == |raws|)
      && (!p.complete ==> FirstMatch(externals, raws[|p.added|].request) == |externals|)
      && (p.complete <==> forall i :: 0 <= i < |raws| ==> FirstMatch(externals, raws[i].request) < |externals|)
  {
    if deps != [] {
      var init := deps[..|deps| - 1];
      var d := deps[|deps| - 1];
      ResolveIsOnePerRawImport(init, externals);
      var raws0 := RawImports(init);
      var raws := RawImports(deps);
      assert raws[..|raws0|] == raws0;
      var p0 := Resolve(init, externals);
      if !p0.complete && d.ImportRaw? {
        assert FirstMatch(externals, raws[|p0.added|].request) == |externals|;
      }
    }
  }

  /** Once a module's pass has thrown, later dependencies change nothing. */
  lemma {:induction false} ResolveStopsAtThrow(a: seq<Dependency>, b: seq<Dependency>, externals: seq<Module>)
    requires !Resolve(a, externals).complete
    ensures Resolve(a + b, externals) == Resolve(a, externals)
    decreases |b|
  {
    if b == [] {
      assert a + b == a;
    } else {
      var init := b[..|b| - 1];
      assert (a + b)[..|a + b| - 1] == a + init;
      ResolveStopsAtThrow(a, init, externals);
    }
  }

  /** `d` is an ExternalModuleImportDependency constructed from `a`. */
  predicate Carries(d: Dependency, a: Addition) {
    d.ExternalModuleImport? && d.dep.request == a.request && d.dep.targetRequest == a.targetRequest
    && d.dep.range == a.range
  }

  /** `after` is `before` followed by one dependency per addition, in order. */
  predicate Appended(after: seq<Dependency>, before: seq<Dependency>, added: seq<Addition>) {
    && |after| == |before| + |added|
    && after[..|before|] == before
    && forall j :: 0 <= j < |added| ==> Carries(after[|before| + j], added[j])
  }

  /**
   * The per-module body of the finishModules tap's dependency loop: `module.dependencies` is read and left as it is;
   * the module's presentational dependencies grow by what Resolve says, and the
   * result tells whether the module's loop finished or threw.
   */
  method AddImportDependencies(m: Module, externalModules: seq<Module>) returns (finished: bool)
    modifies m`presentationalDependencies
    ensures finished == Resolve(m.dependencies, externalModules).complete
    ensures Appended(m.presentationalDependencies, old(m.presentationalDependencies),
                     Resolve(m.dependencies, externalModules).added)
  {
    var deps := m.dependencies;
    ghost var before := m.presentationalDependencies;
    var i := 0;
    while i < |deps|
      invariant 0 <= i <= |deps|
      invariant Resolve(deps[..i], externalModules).complete
      invariant Appended(m.presentationalDependencies, before, Resolve(deps[..i], externalModules).added)
    {
      var dep := deps[i];
      assert deps[..i + 1][..i] == deps[..i];
      if dep.ImportRaw? {
        var k := FirstMatch(externalModules, dep.request);
        if k == |externalModules| {
          // `target` is undefined and `target.request` throws a TypeError
          ResolveStopsAtThrow(deps[..i + 1], deps[i + 1..], externalModules);
          assert deps[..i + 1] + deps[i + 1..] == deps;
          return false;
        }
        ghost var added := Resolve(deps[..i], externalModules).added;
        var moduleImportDep := new ExternalModuleImportDependency(dep.request, externalModules[k].request, dep.range);
        m.AddPresentationalDependency(ExternalModuleImport(moduleImportDep));
        assert Carries(m.presentationalDependencies[|before| + |added|],
                       Addition(dep.request, externalModules[k].request, dep.range));
      }
      i := i + 1;
    }
    assert deps[..i] == deps;
    return true;
  }

  /**
   * The dependency loop of the finishModules tap: every module in turn gets
   * its import dependencies; a TypeError in one module ends the pass there, so
   * that module is the first whose loop throws, and the later modules are
   * left untouched.
   */
  method AttachImportDependencies(modules: seq<Module>, externalModules: seq<Module>) returns (outcome: FinishOutcome)
    requires forall i, j :: 0 <= i < j < |modules| ==> modules[i] != modules[j]
    modifies set m | m in modules
    ensures forall j :: 0 <= j < |modules| ==> modules[j].dependencies == old(modules[j].dependencies)
    ensures outcome.Finished? <==>
      forall j :: 0 <= j < |modules| ==> Resolve(modules[j].dependencies, externalModules).complete
    ensures outcome.ThrewTypeError? ==>
      && outcome.atModule < |modules|
      && !Resolve(modules[outcome.atModule].dependencies, externalModules).complete
      && (forall j :: 0 <= j < outcome.atModule ==> Resolve(modules[j].dependencies, externalModules).complete)
    ensures forall j :: 0 <= j < |modules| && (outcome.Finished? || j <= outcome.atModule) ==>
      Appended(modules[j].presentationalDependencies, old(modules[j].presentationalDependencies),
               Resolve(modules[j].dependencies, externalModules).added)
    ensures forall j :: 0 <= j < |modules| && outcome.ThrewTypeError? && outcome.atModule < j ==>
      modules[j].presentationalDependencies == old(modules[j].presentationalDependencies)
  {
    var i := 0;
    while i < |modules|
      invariant 0 <= i <= |modules|
      invariant forall j :: 0 <= j < |modules| ==> modules[j].dependencies == old(modules[j].dependencies)
      invariant forall j :: 0 <= j < i ==> Resolve(modules[j].dependencies, externalModules).complete
      invariant forall j :: 0 <= j < i ==>
        Appended(modules[j].presentationalDependencies, old(modules[j].presentationalDependencies),
                 Resolve(modules[j].dependencies, externalModules).added)
      invariant forall j :: i <= j < |modules| ==>
        modules[j].presentationalDependencies == old(modules[j].presentationalDependencies)
    {
      var finished := AddImportDependencies(modules[i], externalModules);
      if !finished {
        return ThrewTypeError(i);
      }
      i := i + 1;
    }
    return Finished;
  }

  // ---------------------------------------------------------------------
  // Removing the connections into externals

  /** The removal loop of the finishModules tap: every incoming "import() raw" connection of an external goes, everything else stays, in order. */
  method RemoveExternalConnections(moduleGraph: ModuleGraph, externalModules: seq<Module>)
    modifies moduleGraph
    ensures moduleGraph.connections == WithoutRawInto(old(moduleGraph.connections), set m | m in externalModules)
  {
    ghost var start := moduleGraph.connections;
    ghost var removed: set<Module> := {};
    WithoutRawIntoNothing(start);
    var i := 0;
    while i < |externalModules|
      invariant 0 <= i <= |externalModules|
      invariant forall m :: m in removed <==> m in externalModules[..i]
      invariant moduleGraph.connections == WithoutRawInto(start, removed)
    {
      WithoutRawIntoTwice(start, removed, {externalModules[i]});
      assert externalModules[..i + 1] == externalModules[..i] + [externalModules[i]];
      moduleGraph.RemoveIncomingImportRaw(externalModules[i]);
      removed := removed + {externalModules[i]};
      i := i + 1;
    }
    assert externalModules[..i] == externalModules;
    assert removed == set m | m in externalModules;
  }

  // ---------------------------------------------------------------------
  // The plugin

  /** How the pass ended: it finished, or a TypeError escaped while processing `modules[atModule]`. */
  datatype FinishOutcome = Finished | ThrewTypeError(atModule: nat)

  class ExternalsPlugin<X> {
    /** The plugin's `type` field: the default external type. */
    const defaultType: Option<string>
    /** The externals configuration, kept as given. */
    const externals: X

    constructor (defaultType: Option<string>, externals: X)
      ensures this.defaultType == defaultType && this.externals == externals
    {
      this.defaultType := defaultType;
      this.externals := externals;
    }

    /**
     * The `finishModules` tap. `modules` is the compilation's module set in
     * iteration order, so no module appears twice.
     */
    method FinishModules(moduleGraph: ModuleGraph, modules: seq<Module>) returns (outcome: FinishOutcome)
      requires forall i, j :: 0 <= i < j < |modules| ==> modules[i] != modules[j]
      modifies (set m | m in modules), moduleGraph
      ensures forall j :: 0 <= j < |modules| ==> modules[j].dependencies == old(modules[j].dependencies)
      ensures outcome.Finished? <==>
        forall j :: 0 <= j < |modules| ==> Resolve(modules[j].dependencies, Externals(modules)).complete
      ensures outcome.Finished? ==>
        && (forall j :: 0 <= j < |modules| ==>
              Appended(modules[j].presentationalDependencies, old(modules[j].presentationalDependencies),
                       Resolve(modules[j].dependencies, Externals(modules)).added))
        && moduleGraph.connections ==
             WithoutRawInto(old(moduleGraph.connections), set m | m in Externals(modules))
      ensures outcome.ThrewTypeError? ==>
        && outcome.atModule < |modules|
        && !Resolve(modules[outcome.atModule].dependencies, Externals(modules)).complete
        && (forall j :: 0 <= j < outcome.atModule ==> Resolve(modules[j].dependencies, Externals(modules)).complete)
        && (forall j :: 0 <= j <= outcome.atModule ==>
              Appended(modules[j].presentationalDependencies, old(modules[j].presentationalDependencies),
                       Resolve(modules[j].dependencies, Externals(modules)).added))
        && (forall j :: outcome.atModule < j < |modules| ==>
              modules[j].presentationalDependencies == old(modules[j].presentationalDependencies))
        && moduleGraph.connections == old(moduleGraph.connections)
    {
      var externalModules := CollectExternalModules(modules);
      outcome := AttachImportDependencies(modules, externalModules);
      if outcome.Finished? {
        RemoveExternalConnections(moduleGraph, externalModules);
      }
    }
  }
}
