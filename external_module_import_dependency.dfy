/**
 * ExternalModuleImportDependency (lib/library/modern-module/Dependency.js):
 * the presentational dependency the external pass attaches for every
 * `import()` of an external, its serialization segment, and its template.
 */
module ExternalImport {

  /** A parser range `[start, end]` (JavascriptParser's Range; opaque here). */
  datatype Range = Range(start: int, end: int)

  /** A value travelling through the object serializer; unset fields are `Undefined`. */
  datatype Value = Undefined | Text(text: string) | Texts(items: seq<string>)

  /** The `write` side of a serializer context: everything written so far, in order. */
  class ObjectWriter {
    var written: seq<Value>

    constructor (written: seq<Value>)
      ensures this.written == written
    {
      this.written := written;
    }

    method Write(v: Value)
      modifies this
      ensures written == old(written) + [v]
    {
      written := written + [v];
    }
  }

  /** The value a read at `position` yields: past the end, JavaScript's `undefined`. */
  function ValueAt(data: seq<Value>, position: nat): (v: Value)
    ensures position < |data| ==> v == data[position]
    ensures position >= |data| ==> v == Undefined
  {
    if position < |data| then data[position] else Undefined
  }

  /** The `read` side of a serializer context: a cursor over the written values. */
  class ObjectReader {
    const data: seq<Value>
    var position: nat

    constructor (data: seq<Value>, position: nat)
      ensures this.data == data && this.position == position
    {
      this.data := data;
      this.position := position;
    }

    method Read() returns (v: Value)
      modifies this
      ensures v == ValueAt(data, old(position))
      ensures position == old(position) + 1
    {
      v := if position < |data| then data[position] else Undefined;
      position := position + 1;
    }
  }

  /**
   * The dependency. `request`, `targetRequest` and `range` are set once by the
   * constructor; `importedModule`, `specifiers` and `default` are never set by
   * this class except through `Deserialize`, so they start out `Undefined`.
   */
  class ExternalModuleImportDependency {
    const request: string
    const targetRequest: string
    const range: Range
    var importedModule: Value
    var specifiers: Value
    var default: Value

    constructor (request: string, targetRequest: string, range: Range)
      ensures this.request == request && this.targetRequest == targetRequest && this.range == range
      ensures importedModule == Undefined && specifiers == Undefined && default == Undefined
    {
      this.request := request;
      this.targetRequest := targetRequest;
      this.range := range;
      importedModule, specifiers, default := Undefined, Undefined, Undefined;
    }

    /**
     * Appends this class's segment after whatever the base classes wrote:
     * `importedModule`, `specifiers`, `default`, in that order. The dependency
     * itself is left as it was.
     */
    method Serialize(context: ObjectWriter)
      modifies context
      ensures context.written == old(context.written) + [importedModule, specifiers, default]
    {
      context.Write(importedModule);
      context.Write(specifiers);
      context.Write(default);
    }

    /**
     * Reads this class's segment where the base classes stopped: the next three
     * values become `importedModule`, `specifiers` and `default`, in that order.
     * `request`, `targetRequest` and `range` are not part of the segment.
     */
    method Deserialize(context: ObjectReader)
      modifies this, context
      ensures importedModule == ValueAt(context.data, old(context.position))
      ensures specifiers == ValueAt(context.data, old(context.position) + 1)
      ensures default == ValueAt(context.data, old(context.position) + 2)
      ensures context.position == old(context.position) + 3
    {
      importedModule := context.Read();
      specifiers := context.Read();
      default := context.Read();
    }
  }

  /**
   * The round trip: whatever the base classes write first (`base`), serializing
   * `d` and then deserializing into any instance `into` from where the base
   * segment ends gives `into` the three values of `d`. This class's own segment
   * carries neither `targetRequest` nor `range`: `range` travels in the base
   * segment, which is not modelled here, and `targetRequest` in no segment.
   */
  method SerializeRoundTrip(d: ExternalModuleImportDependency, base: seq<Value>, into: ExternalModuleImportDependency)
    returns (written: seq<Value>)
    modifies into
    ensures written == base + [old(d.importedModule), old(d.specifiers), old(d.default)]
    ensures into.importedModule == old(d.importedModule)
    ensures into.specifiers == old(d.specifiers)
    ensures into.default == old(d.default)
  {
    var writer := new ObjectWriter(base);
    d.Serialize(writer);
    written := writer.written;
    var reader := new ObjectReader(written, |base|);
    into.Deserialize(reader);
  }

  /** The pieces of generated code a ReplaceSource will splice in: position range and text. */
  datatype Replacement = Replacement(start: int, end: int, content: string)

  /** The source a template edits in place. */
  class ReplaceSource {
    var replacements: seq<Replacement>

    constructor (replacements: seq<Replacement>)
      ensures this.replacements == replacements
    {
      this.replacements := replacements;
    }
  }

  /** The template registered for the dependency. */
  class ExternalModuleImportDependencyTemplate {
    constructor ()
    {
    }

    /** Makes no edit: the source keeps exactly the replacements it had. */
    method Apply(dependency: ExternalModuleImportDependency, source: ReplaceSource)
      ensures source.replacements == old(source.replacements)
    {
    }
  }
}
