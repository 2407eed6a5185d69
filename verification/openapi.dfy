/**
 The document `Foae` builds in `self.spec`: an `openapi` version, an `info`
 block and `paths`, a map from a normalised rule to that rule's definition.
 A definition is a Python dict whose keys are lower-cased HTTP methods and,
 beside them, possibly the key `parameters`; the two kinds of value share one
 key space, exactly as in the dict.
 */
module Openapi {
  import opened Results

  datatype Info = Info(title: string, version: string)

  /** A response object: `{'description': …}`. */
  datatype ResponseObject = ResponseObject(description: string)

  /** One entry of a `parameters` list: `name`, `in`, `required` and `type`. */
  datatype PathParameter = PathParameter(name: string, location: string, required: bool, schemaType: string)

  /**
   A value in a definition: an operation (`tags` and, for the default `get` only,
   a `response` map), or the `parameters` list.
   */
  datatype Entry =
    | Operation(tags: seq<string>, response: Option<map<int, ResponseObject>>)
    | Parameters(list: seq<PathParameter>)

  type Definition = map<string, Entry>

  datatype Document = Document(openapi: string, info: Info, paths: map<string, Definition>)

  const OpenapiVersion: string := "3.0.0"
  const DefaultVersion: string := "1.0.0"

  /** `Foae.__init__`: the starting document; `version` defaults to `1.0.0`. */
  function New(title: string, version: string := DefaultVersion): (d: Document)
    ensures d.openapi == "3.0.0"
    ensures d.info.title == title && d.info.version == version
    ensures |d.paths| == 0
  {
    Document(OpenapiVersion, Info(title, version), map[])
  }

  /** `self.spec['paths'][key] = definition`: sets that one key and nothing else. */
  function Store(doc: Document, key: string, definition: Definition): (r: Document)
    ensures r.openapi == doc.openapi && r.info == doc.info
    ensures r.paths.Keys == doc.paths.Keys + {key}
    ensures r.paths[key] == definition
    ensures forall k :: k in doc.paths && k != key ==> r.paths[k] == doc.paths[k]
  {
    doc.(paths := doc.paths[key := definition])
  }

  /** A second store under the same key replaces the first entirely. */
  lemma StoreOverwrites(doc: Document, key: string, first: Definition, second: Definition)
    ensures Store(Store(doc, key, first), key, second) == Store(doc, key, second)
  {
    assert Store(Store(doc, key, first), key, second).paths == Store(doc, key, second).paths;
  }

  /** Stores under different keys do not interfere, whatever their order. */
  lemma StoresCommute(doc: Document, k1: string, d1: Definition, k2: string, d2: Definition)
    requires k1 != k2
    ensures Store(Store(doc, k1, d1), k2, d2) == Store(Store(doc, k2, d2), k1, d1)
  {
    assert Store(Store(doc, k1, d1), k2, d2).paths == Store(Store(doc, k2, d2), k1, d1).paths;
  }
}
