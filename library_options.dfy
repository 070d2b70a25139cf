/**
 * `parseOptions` of the ESM library plugins: both reject any truthy
 * `library.name`, because an ESM library exports its bindings instead of
 * assigning them to a named global.
 */
module LibraryOptions {
  import opened Wrappers

  /** The forms `output.library.name` can take. */
  datatype LibraryName =
    | Undefined
    | NameString(text: string)
    | NameArray(parts: seq<string>)
    | NameObject(amd: Option<string>, commonjs: Option<string>, root: Option<seq<string>>)

  /** The normalized library option: its `type` and its `name`. */
  datatype LibraryOptions = LibraryOptions(libraryType: string, name: LibraryName)

  /** What `parseOptions` returns: `{ name }`. */
  datatype Parsed = Parsed(name: LibraryName)

  /** The error `parseOptions` throws ("Library name must be unset. …"). */
  datatype OptionsError = LibraryNameMustBeUnset

  /** JavaScript truthiness of the name: undefined and "" are falsy, every array or object is truthy. */
  predicate IsTruthy(name: LibraryName) {
    match name
    case Undefined => false
    case NameString(t) => t != ""
    case NameArray(_) => true
    case NameObject(_, _, _) => true
  }

  /**
   * Throws iff the name is truthy; otherwise returns the (falsy) name unchanged,
   * which is then undefined or the empty string.
   */
  function ParseOptions(library: LibraryOptions): (r: Result<Parsed, OptionsError>)
    ensures r.Failure? <==> IsTruthy(library.name)
    ensures r.Failure? ==> r.error == LibraryNameMustBeUnset
    ensures r.Success? ==> r.value.name == library.name
    ensures r.Success? ==> library.name == Undefined || library.name == NameString("")
  {
    if IsTruthy(library.name) then Failure(LibraryNameMustBeUnset)
    else Success(Parsed(library.name))
  }
}
