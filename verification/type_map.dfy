/**
 The type table `Foae._map_type`. The Python method compares its argument with
 the builtin type objects `int`, `str`, `bool`, `list` and `dict`; an argument of
 any other kind (in particular a plain string such as `'int'`) equals none of them.
 */
module TypeMap {

  /** The five builtin type objects the table recognises. */
  datatype PyType = Int | Str | Bool | List | Dict

  /** The argument of `_map_type`: a builtin type object or a Python `str` value. */
  datatype PyValue = TypeObject(ty: PyType) | StrValue(s: string)

  /** The schema type names the table can produce. */
  const SchemaTypes: set<string> := {"integer", "string", "boolean", "array", "object"}

  function MapType(t: PyValue): (r: string)
    ensures r in SchemaTypes
    ensures r == "integer" <==> t == TypeObject(Int)
    ensures r == "boolean" <==> t == TypeObject(Bool)
    ensures r == "array" <==> t == TypeObject(List)
    ensures r == "object" <==> t == TypeObject(Dict)
    ensures r == "string" <==> t !in {TypeObject(Int), TypeObject(Bool), TypeObject(List), TypeObject(Dict)}
  {
    if t == TypeObject(Int) then "integer"
    else if t == TypeObject(Str) then "string"
    else if t == TypeObject(Bool) then "boolean"
    else if t == TypeObject(List) then "array"
    else if t == TypeObject(Dict) then "object"
    else "string"
  }

  /** The call site passes the annotation's identifier, a string, so the table always answers `string`. */
  lemma IdentifierMapsToString(id: string)
    ensures MapType(StrValue(id)) == "string"
    ensures id == "int" ==> MapType(StrValue(id)) != MapType(TypeObject(Int))
  {
  }
}
