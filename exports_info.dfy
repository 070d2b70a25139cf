/**
 * The per-module export table the library plugins read: one ExportInfo per
 * export in `orderedExports` order, and the lookup of an export's final name
 * in the `exportsFinalName` map a concatenated module carries.
 */
module ExportsInfo {
  import opened Wrappers
  import opened EsmSyntax

  /** The value of `exportInfo.getUsedName(name, runtime)`: a property name, or `false` when unused. */
  datatype UsedName = Used(property: string) | Unused

  /**
   * One export. `provided` is `true`, `false` or unknown (`null`/`undefined`);
   * `usedName` is what `getUsedName(name, chunk.runtime)` answers for the
   * chunk being rendered (the used-name computation is not part of this model).
   */
  datatype ExportInfo = ExportInfo(name: string, provided: Option<bool>, usedName: UsedName)

  /** `buildMeta.exportsFinalName`: property name to final identifier. */
  type FinalNames = map<string, string>

  /** JavaScript truthiness of `exportInfo.provided`. */
  predicate IsProvided(info: ExportInfo) {
    info.provided == Some(true)
  }

  /** The property key `definitions[usedName]` looks up (`false` becomes "false"). */
  function PropertyKey(u: UsedName): string {
    match u
    case Used(p) => p
    case Unused => "false"
  }

  /** `definitions[usedName]`: the final name, or undefined when the key is missing. */
  function LookupFinalName(definitions: FinalNames, info: ExportInfo): (r: Option<string>)
    ensures r.Some? <==> PropertyKey(info.usedName) in definitions
    ensures r.Some? ==> r.value == definitions[PropertyKey(info.usedName)]
  {
    var key := PropertyKey(info.usedName);
    if key in definitions then Some(definitions[key]) else None
  }

  /** The final name as a template literal prints it (`undefined` for a missing key). */
  function FinalNameText(definitions: FinalNames, info: ExportInfo): string {
    match LookupFinalName(definitions, info)
    case Some(f) => f
    case None => "undefined"
  }

  /** The binding an export gets when final names are known: its final name, exported under its own name. */
  function FinalNameBindings(definitions: FinalNames, infos: seq<ExportInfo>): (bs: seq<Binding>)
    ensures |bs| == |infos|
    ensures forall i :: 0 <= i < |infos| ==>
      bs[i] == Binding(FinalNameText(definitions, infos[i]), infos[i].name)
  {
    if infos == [] then []
    else [Binding(FinalNameText(definitions, infos[0]), infos[0].name)] + FinalNameBindings(definitions, infos[1..])
  }

  /** The export names, in table order. */
  function Names(infos: seq<ExportInfo>): (names: seq<string>)
    ensures |names| == |infos|
    ensures forall i :: 0 <= i < |infos| ==> names[i] == infos[i].name
  {
    if infos == [] then [] else [infos[0].name] + Names(infos[1..])
  }
}
