/**
 * The parts of the compilation's state the core reads and changes: modules
 * with their dependency lists, the module graph's connections, and the
 * compilation's `modules` and `builtModules` sets.
 */
module Graph {
  import opened Wrappers
  import opened ExternalImport

  /**
   * The dependency kinds the core distinguishes. Every subclass of
   * HarmonyImportDependency is one `HarmonyImport`; `ImportRaw` is the
   * dependency of type "import() raw"; `ExternalModuleImport` is an
   * ExternalModuleImportDependency object; all other kinds
   * are `OtherDependency`.
   */
  datatype Dependency =
    | HarmonyImport(request: string)
    | HarmonyExportSpecifier(id: string, name: string)
    | ImportRaw(request: string, range: Range)
    | ExternalModuleImport(dep: ExternalModuleImportDependency)
    | OtherDependency(tag: nat)

  /** A module of the compilation. Its identity is the object's. */
  class Module {
    const request: string
    const userRequest: string
    /** `externalType`, set only on external modules. */
    const externalType: Option<string>
    var dependencies: seq<Dependency>
    var presentationalDependencies: seq<Dependency>

    constructor (request: string, userRequest: string, externalType: Option<string>, dependencies: seq<Dependency>)
      ensures this.request == request && this.userRequest == userRequest
      ensures this.externalType == externalType
      ensures this.dependencies == dependencies && presentationalDependencies == []
    {
      this.request := request;
      this.userRequest := userRequest;
      this.externalType := externalType;
      this.dependencies := dependencies;
      presentationalDependencies := [];
    }

    /** The module ConcatenatedModule.create returns: a new module, not external. */
    constructor Synthetic()
      ensures externalType == None && dependencies == [] && presentationalDependencies == []
    {
      request, userRequest, externalType := "", "", None;
      dependencies, presentationalDependencies := [], [];
    }

    method AddPresentationalDependency(d: Dependency)
      modifies this`presentationalDependencies
      ensures presentationalDependencies == old(presentationalDependencies) + [d]
    {
      presentationalDependencies := presentationalDependencies + [d];
    }
  }

  /** An edge of the module graph: from `origin` (null for entries) to `target`, made by `dependency`. */
  datatype Connection = Connection(origin: Module?, target: Module, dependency: Dependency)

  /**
   * One connection after `moveModuleConnections(oldModule, newModule, keep)`:
   * outgoing connections are handled first, then incoming ones, and each moves
   * only when `keep` accepts it as it is at that moment.
   */
  function MoveConnection(c: Connection, oldModule: Module, newModule: Module, keep: Connection -> bool): Connection {
    var c1 := if c.origin == oldModule && keep(c) then c.(origin := newModule) else c;
    if c1.target == oldModule && keep(c1) then c1.(target := newModule) else c1
  }

  /** The connections without the "import() raw" ones that lead into `targets`. */
  function WithoutRawInto(cs: seq<Connection>, targets: set<Module>): (r: seq<Connection>)
    ensures |r| <= |cs|
    ensures forall c :: c in r ==> c in cs && !(c.dependency.ImportRaw? && c.target in targets)
    ensures forall c :: c in cs && !(c.dependency.ImportRaw? && c.target in targets) ==> c in r
  {
    if cs == [] then []
    else if cs[0].dependency.ImportRaw? && cs[0].target in targets then WithoutRawInto(cs[1..], targets)
    else [cs[0]] + WithoutRawInto(cs[1..], targets)
  }

  /** Removing for one set of targets and then another is removing for both. */
  lemma {:induction false} WithoutRawIntoTwice(cs: seq<Connection>, a: set<Module>, b: set<Module>)
    ensures WithoutRawInto(WithoutRawInto(cs, a), b) == WithoutRawInto(cs, a + b)
  {
    if cs != [] {
      WithoutRawIntoTwice(cs[1..], a, b);
    }
  }

  /** Removing for no targets removes nothing. */
  lemma {:induction false} WithoutRawIntoNothing(cs: seq<Connection>)
    ensures WithoutRawInto(cs, {}) == cs
  {
    if cs != [] {
      WithoutRawIntoNothing(cs[1..]);
    }
  }

  /** The module graph, as the sequence of its connections. */
  class ModuleGraph {
    var connections: seq<Connection>

    constructor (connections: seq<Connection>)
      ensures this.connections == connections
    {
      this.connections := connections;
    }

    /**
     * Moves the connections of `oldModule` that `keep` accepts to `newModule`
     * (ModuleGraph.moveModuleConnections; its bookkeeping sets are not part of
     * this model, only where each connection ends up).
     */
    method MoveModuleConnections(oldModule: Module, newModule: Module, keep: Connection -> bool)
      modifies this
      ensures |connections| == |old(connections)|
      ensures forall i :: 0 <= i < |connections| ==>
        connections[i] == MoveConnection(old(connections)[i], oldModule, newModule, keep)
    {
      var cs := connections;
      var moved: seq<Connection> := [];
      var i := 0;
      while i < |cs|
        invariant 0 <= i <= |cs|
        invariant |moved| == i
        invariant forall j :: 0 <= j < i ==> moved[j] == MoveConnection(cs[j], oldModule, newModule, keep)
      {
        moved := moved + [MoveConnection(cs[i], oldModule, newModule, keep)];
        i := i + 1;
      }
      connections := moved;
    }

    /**
     * Removes every incoming connection of `m` whose dependency is an
     * ImportRawDependency (one `removeConnection(dep)` each), keeping the rest in order.
     */
    method RemoveIncomingImportRaw(m: Module)
      modifies this
      ensures connections == WithoutRawInto(old(connections), {m})
    {
      var cs := connections;
      var kept: seq<Connection> := [];
      var i := 0;
      while i < |cs|
        invariant 0 <= i <= |cs|
        invariant kept == WithoutRawInto(cs[..i], {m})
      {
        WithoutRawIntoSnoc(cs[..i], cs[i], {m});
        assert cs[..i + 1] == cs[..i] + [cs[i]];
        if !(cs[i].dependency.ImportRaw? && cs[i].target == m) {
          kept := kept + [cs[i]];
        }
        i := i + 1;
      }
      assert cs[..i] == cs;
      connections := kept;
    }
  }

  lemma {:induction false} WithoutRawIntoSnoc(cs: seq<Connection>, c: Connection, targets: set<Module>)
    ensures WithoutRawInto(cs + [c], targets) ==
      WithoutRawInto(cs, targets) + (if c.dependency.ImportRaw? && c.target in targets then [] else [c])
  {
    if cs == [] {
      assert cs + [c] == [c];
    } else {
      assert (cs + [c])[1..] == cs[1..] + [c];
      WithoutRawIntoSnoc(cs[1..], c, targets);
    }
  }

  /** The compilation's module sets and its module graph. */
  class Compilation {
    var modules: set<Module>
    var builtModules: set<Module>
    const moduleGraph: ModuleGraph

    constructor (modules: set<Module>, builtModules: set<Module>, moduleGraph: ModuleGraph)
      ensures this.modules == modules && this.builtModules == builtModules && this.moduleGraph == moduleGraph
    {
      this.modules := modules;
      this.builtModules := builtModules;
      this.moduleGraph := moduleGraph;
    }
  }
}
