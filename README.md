# ESM library output of webpack, modelled in Dafny

This project models the part of webpack that emits a bundle as an ECMAScript
module library (`output.library.type` `"module"` and `"modern-module"`):

- **ModuleLibraryPlugin** has three parts:
  - the `exportsDefinitions` answer, which allows the final-name fast path unless split chunks are on;
  - `parseOptions`, which rejects a library name;
  - `renderStartup`, which appends the `export { … };` statement for the entry module's provided exports. It uses their final names when the module carries `exportsFinalName`. Otherwise it goes through `var __webpack_exports__<id> = __webpack_exports__<access>;` rebindings.
- **ModernModuleLibraryPlugin** has three parts:
  - `parseOptions`;
  - `renderStartup`, which works from final names or from the module's "harmony export specifier" dependencies;
  - the `optimizeChunkModules` callback. It receives every chunk and the compilation's modules, not one chunk's modules. When that collection holds more than one module, it does nothing. When it holds exactly one, the callback merges the root's runtimes, builds a concatenated module, and integrates it. Integration swaps the module sets, propagates `builtModules`, and moves every connection of the root that is not an inner harmony import.
- **ExternalsPlugin** (modern-module) has two parts:
  - its constructor;
  - its `finishModules` pass. The pass collects the external modules and attaches an ExternalModuleImportDependency for every "import() raw" dependency, targeting the first external whose `userRequest` matches. A TypeError escapes when none matches. Finally the pass cuts the "import() raw" connections into externals.
- **ExternalModuleImportDependency** has three parts:
  - its constructor;
  - its serialization segment (`importedModule`, `specifiers`, `default`, after the base classes' segment);
  - its template, which makes no edit.

Every rendered statement has a partner. `EsmSyntax.ReadStatement` parses an export statement back into the bindings it exports. It is strict: an entry reads only as `local as exported` or as a bare name, and any other keyword, or an empty name, makes the whole statement unreadable. `EsmSyntax.StatementReadsBack` proves that a statement built from entries reads back to exactly their bindings, in order, with either separator and either entry form. Each renderer's read-back lemma follows from it.

The modules are:
- `Wrappers`: Option and Result.
- `EsmSyntax`: the statement text and its reader.
- `ExportsInfo`: the export table and the final-name lookup.
- `LibraryOptions`: the `parseOptions` shared by both plugins.
- `Graph`: dependencies, modules, the module graph and the compilation.
- `ExternalImport`: Dependency.js.
- `ModuleLibrary`: ModuleLibraryPlugin.js.
- `ModernModuleLibrary`: ModernModuleLibraryPlugin.js.
- `ModernModuleExternals`: ExternalsPlugin.js.

Some JavaScript behaviour is written out explicitly:
- Truthiness of `library.name`, `exportInfo.provided`, `externalType` and `optimization.splitChunks`.
- `definitions[usedName]`. The key is the used name, or the string "false" for an unused export. A missing key prints as `undefined`, and Modern's `finalName === exportInfo.name` is then false.
- `Array.prototype.join`.
- The order in which `moveModuleConnections` applies its filter: outgoing connections first, then incoming ones.

In the Modern plugin without final names, each specifier entry is written `name as id`, as the source text at lib/library/ModernModuleLibraryPlugin.js:225-228 has it. The model follows that text. HarmonyExportSpecifierDependency is not part of this model, so whether `name` or `id` is the exported name is not checked against it.

## Model

| member | source | states |
|---|---|---|
| LibraryOptions.ParseOptions | lib/library/ModernModuleLibraryPlugin.js:158-168 | fails with "library name must be unset" iff the name is truthy; otherwise returns the name unchanged, which is then undefined or ""; ModuleLibraryPlugin.js:78-88 is the same code |
| ModuleLibrary.ExportsDefinitions | lib/library/ModuleLibraryPlugin.js:47-60 | the tap answers true iff split chunks are not enabled, undefined iff they are, and never false |
| ModuleLibrary.ProvidedExportsAreTheProvided | lib/library/ModuleLibraryPlugin.js:110-111 | the `continue` on unprovided exports keeps exactly the provided exports (membership in both directions), never adds one, and drops nothing iff all are provided |
| ModuleLibrary.RenderStartup | lib/library/ModuleLibraryPlugin.js:97-157 | the rendered startup is the final-name text when the module has final names and the rebinding text otherwise |
| ModuleLibrary.RenderWithFinalNames | lib/library/ModuleLibraryPlugin.js:103-127 | the loop's output is the source plus the ",\n"-joined statement of `finalName as name` for each provided export in table order, or the source alone when none is provided |
| ModuleLibrary.RenderWithRebinding | lib/library/ModuleLibraryPlugin.js:128-156 | the output is the source, the await line for an async module, the `var` lines, then the ", "-joined statement when some export is provided |
| ModuleLibrary.AppendRebindings | lib/library/ModuleLibraryPlugin.js:138-150 | the loop appends one `var` line per provided export in table order and collects the matching `varName as name` entries |
| ModuleLibrary.FinalNameStartupReadsBack | lib/library/ModuleLibraryPlugin.js:110-125 | the statement is present iff some export is provided; it reads back to each provided export's final name under the export's name, in table order, and exports exactly the provided names |
| ModuleLibrary.VarBindingsAreClauseBindings | lib/library/ModuleLibraryPlugin.js:140-149 | when identifiers have no delimiters, every rebinding `__webpack_exports__<id> as name` is a well-formed clause binding |
| ModuleLibrary.FallbackStartupLayout | lib/library/ModuleLibraryPlugin.js:129-153 | the await line comes first; line i declares exactly the local that entry i exports; the statement reads back to those bindings and exports exactly the provided names; there is no statement iff nothing is provided |
| ExportsInfo.LookupFinalName | lib/library/ModuleLibraryPlugin.js:112-120 | the final name is found iff the used name's property key (or "false") is in the map, and it is that key's value |
| ModernModuleLibrary.RenderStartup | lib/library/ModernModuleLibraryPlugin.js:190-239 | the rendered text has one entry per export (final names) or per export specifier dependency (otherwise), joined by ", " |
| ModernModuleLibrary.StartupWithDefinitionsReadsBack | lib/library/ModernModuleLibraryPlugin.js:201-217 | with final names, the statement reads back to each export's final name under the export's own name, for every export in table order (not filtered by `provided`) |
| ModernModuleLibrary.StartupWithoutDefinitionsReadsBack | lib/library/ModernModuleLibraryPlugin.js:218-236 | without final names, the statement reads back to exactly the specifier bindings, in dependency order |
| ModernModuleLibrary.SpecifierEntriesDenote | lib/library/ModernModuleLibraryPlugin.js:220-230 | specifier entries and bindings correspond one to one; each entry, bare or `as`, exports its binding |
| ModernModuleLibrary.StartupElision | lib/library/ModernModuleLibraryPlugin.js:234-236 | the output is the source itself iff there is no entry: with final names iff the table is empty, without iff no dependency is an export specifier |
| ModernModuleLibrary.SingleExportWrittenBare | lib/library/ModernModuleLibraryPlugin.js:212-216 | an export whose final name equals its name is written bare: `export { value };` |
| ModernModuleLibrary.MergeRuntimes | lib/library/ModernModuleLibraryPlugin.js:74-77 | folding mergeRuntimeOwned from undefined gives undefined for no runtimes, else the union of all of them |
| ModernModuleLibrary.UnionOfAllOrderFree | lib/library/ModernModuleLibraryPlugin.js:74-77 | the merged runtime does not depend on the order in which the runtimes are reported |
| ModernModuleLibrary.MoveKeepsExactlyInnerConnections | lib/library/ModernModuleLibraryPlugin.js:124-131 | a connection with the root at exactly one end stays on the root iff it is a harmony import whose other end is in the configuration; otherwise the new module takes the root's place; other connections are untouched |
| ModernModuleLibrary.TagError | lib/library/ModernModuleLibraryPlugin.js:99-104 | a build error keeps its message, and its module is the new module exactly when it had none |
| ModernModuleLibrary.OptimizeChunkModules | lib/library/ModernModuleLibraryPlugin.js:67-139 | more than one module in the compilation's collection: skip with no change; no module: throw with no change; one module: a failed build reports the tagged error with no change, a successful build integrates |
| ModernModuleLibrary.Integrate | lib/library/ModernModuleLibraryPlugin.js:109-136 | the root leaves and the new module joins `modules`; the new module is built iff some configuration module was built; every connection is moved with the inner-connection filter, in place |
| Graph.ModuleGraph.MoveModuleConnections | lib/library/ModernModuleLibraryPlugin.js:124-131 | the connection list keeps its length and order; each connection is re-pointed as the filter decides, origin first, then target |
| Graph.WithoutRawInto | lib/library/modern-module/ExternalsPlugin.js:81-89 | the kept connections are exactly those that are not "import() raw" into a target (both directions), never more than before |
| Graph.WithoutRawIntoTwice | lib/library/modern-module/ExternalsPlugin.js:81-89 | cutting for one set of externals and then another equals cutting for both at once |
| Graph.ModuleGraph.RemoveIncomingImportRaw | lib/library/modern-module/ExternalsPlugin.js:82-88 | removes exactly the incoming "import() raw" connections of one module, keeping the rest in order |
| Graph.Module.AddPresentationalDependency | lib/library/modern-module/ExternalsPlugin.js:76 | appends the dependency at the end of the presentational list |
| ModernModuleExternals.ExternalsPlugin.constructor | lib/library/modern-module/ExternalsPlugin.js:22-25 | stores the default type and the externals configuration unchanged |
| ModernModuleExternals.CollectExternalModules | lib/library/modern-module/ExternalsPlugin.js:54-59 | the loop collects exactly the collection of external modules |
| ModernModuleExternals.ExternalsAreTheExternals | lib/library/modern-module/ExternalsPlugin.js:54-59 | a module is collected iff it is in the iteration and has a truthy externalType; all are kept iff all are external |
| ModernModuleExternals.ExternalsConcat | lib/library/modern-module/ExternalsPlugin.js:55-58 | collection follows iteration order: the externals of a concatenation are those of each part, in turn |
| ModernModuleExternals.FirstMatch | lib/library/modern-module/ExternalsPlugin.js:67-69 | the target is the first external whose userRequest equals the request; no earlier external matches; the index is past the end when none does |
| ModernModuleExternals.RawImportsAreTheRawImports | lib/library/modern-module/ExternalsPlugin.js:64-65 | the filter keeps exactly the "import() raw" dependencies; it is empty iff there is none |
| ModernModuleExternals.ResolveIsOnePerRawImport | lib/library/modern-module/ExternalsPlugin.js:62-78 | one addition per "import() raw" dependency, in order, built from its request, the first match's request and its range; the module completes iff every request has a match; otherwise it stops at the first unmatched one, keeping earlier additions |
| ModernModuleExternals.ResolveStopsAtThrow | lib/library/modern-module/ExternalsPlugin.js:66-75 | once a lookup has failed, later dependencies of the module add nothing |
| ModernModuleExternals.AddImportDependencies | lib/library/modern-module/ExternalsPlugin.js:63-77 | the module's dependencies are untouched; its presentational list grows by exactly the additions above; the result says whether it threw |
| ModernModuleExternals.AttachImportDependencies | lib/library/modern-module/ExternalsPlugin.js:62-78 | modules are processed in order; the pass finishes iff every module completes; on a throw, the reported module is the first whose loop throws, every module before it completed, and modules after it are untouched |
| ModernModuleExternals.RemoveExternalConnections | lib/library/modern-module/ExternalsPlugin.js:81-89 | the graph afterwards holds exactly the connections that are not "import() raw" into an external, in order |
| ModernModuleExternals.ExternalsPlugin.FinishModules | lib/library/modern-module/ExternalsPlugin.js:51-90 | finishes iff every import() of an external resolves; then every module has its additions and the connections into externals are cut; after a throw, the reported module is the first whose loop throws, the modules after it are untouched and the connections are unchanged |
| ExternalImport.ExternalModuleImportDependency.constructor | lib/library/modern-module/Dependency.js:28-33 | sets request, targetRequest and range to the arguments; the three serialized fields start undefined |
| ExternalImport.ExternalModuleImportDependency.Serialize | lib/library/modern-module/Dependency.js:47-53 | appends importedModule, specifiers, default, in that order, after what the base classes wrote |
| ExternalImport.ExternalModuleImportDependency.Deserialize | lib/library/modern-module/Dependency.js:58-64 | reads the next three values into importedModule, specifiers, default, in that order |
| ExternalImport.SerializeRoundTrip | lib/library/modern-module/Dependency.js:47-64 | serialize followed by deserialize restores importedModule, specifiers and default; this class's own segment carries neither targetRequest nor range: range travels in the base segment, which is not modelled, and targetRequest is carried by no segment, so it is lost |
| ExternalImport.ExternalModuleImportDependencyTemplate.Apply | lib/library/modern-module/Dependency.js:81-99 | makes no edit to the source |
| EsmSyntax.ReadEntryExact | lib/library/ModernModuleLibraryPlugin.js:213-215 | an entry reads as binding b iff it is `b.local as b.exported`, or the bare name when the two coincide, with both names nonempty and free of blanks and commas; so the reader fixes the `as` keyword the renderers write |
| EsmSyntax.StatementReadsBack | lib/library/ModuleLibraryPlugin.js:151-153 | an `export { … };` statement built from entries reads back to exactly their bindings, in order, for either separator and either entry form |

## Left out

- Hook registration (`tap`, `tapAsync`, `dependencyTemplates.set`) and the async callback plumbing: the callbacks are modelled as methods, and the build's outcome is an input.
- ModernModuleLibraryPlugin's `exportsDefinitions` tap (lib/library/ModernModuleLibraryPlugin.js:56-58) always answers true; it has no behaviour beyond that constant.
- `ConcatenatedModule.create` and `build`: the new module is a fresh `Module.Synthetic()` object, and the build result is a `BuildResult` input.
- `ConcatConfiguration` and `getModules`: the configuration is an input set of modules.
- `chunkGraph.getModuleRuntimes` is an input list. `mergeRuntimeOwned` is modelled as set union, because webpack's string-or-SortableSet runtime representation is not part of this model.
- `moduleGraph.cloneModuleAttributes`, `ChunkGraph.clearChunkGraphForModule`, `ModuleGraph.clearModuleGraphForModule` and `chunkGraph.replaceModule` are left out: they change chunk-graph and module-attribute state outside the modelled compilation.
- ModuleGraph's internal bookkeeping (per-module incoming and outgoing sets) is left out. The graph is the ordered list of its connections.
- `getUsedName`, `Template.toIdentifier`, `propertyAccess` and `moduleGraph.isAsync` are inputs: a field of each export, two function parameters and a flag. `RuntimeGlobals.exports` is the constant `__webpack_exports__`.
- `ConcatSource` is modelled as string concatenation.
- HarmonyExportSpecifierDependency and HarmonyImportDependency are not part of this model. They are dependency variants carrying the fields the plugins read.
- The base classes' serialization (ModuleDependency and Dependency) is not part of this model. Their segment is a prefix of values that the round trip leaves in place. In the program it carries `request` and `range`, so `range` survives a round trip there; the model's `into` keeps its own `request` and `range` instead. `makeSerializable` registration is left out.
- `console.log` in the template (lib/library/modern-module/Dependency.js:92) is left out because it is output only.
- The commented-out ExternalModuleFactoryPlugin wiring is left out. The `externals` configuration is only stored.
- ModernModuleLibrary.OptimizeChunkModules: takes `modules` as an indexable sequence. When the hook passes a `Set`, `modules[0]` is undefined; the hook's caller is not part of this model. With no module at all the callback is modelled as throwing, because `getModuleRuntimes(undefined)` fails.
- ModernModuleLibrary.OptimizeChunkModules: the ensures leaves out the chunk graph and module attributes; see the line above on the calls left out.
- ModernModuleLibrary.MoveKeepsExactlyInnerConnections: states nothing about a connection with the root at both ends (a self-import of the root); `Integrate` and `Graph.ModuleGraph.MoveModuleConnections` still give the moved form of every connection, that one included.
- ModernModuleExternals.ExternalsPlugin.FinishModules: a TypeError is reported as an outcome carrying the failing module's index rather than as an exception. It requires the modules to be distinct, as the compilation's module set guarantees.
