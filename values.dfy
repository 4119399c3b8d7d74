/** The Python values that flow through the storage layer: filter parameters,
    stored documents and the Mongo queries built from them. */
module Values {
  import opened Wrappers

  /** `None`, a number, a string, a list or a dict (whose keys are values too). */
  datatype Value =
    | Null
    | Int(i: int)
    | Real(r: real)
    | Str(s: string)
    | List(items: seq<Value>)
    | Dict(entries: map<Value, Value>)

  /** `v[key]` for a string key: a dict yields the entry or raises KeyError, and
      anything else raises TypeError. */
  function Subscript(v: Value, key: string): (r: Result<Value>)
    ensures r.Success? <==> v.Dict? && Str(key) in v.entries
    ensures r.Success? ==> r.value == v.entries[Str(key)]
    ensures r.Failure? ==> r.error == (if v.Dict? then KeyError(key) else TypeError)
  {
    if !v.Dict? then Failure(TypeError)
    else if Str(key) !in v.entries then Failure(KeyError(key))
    else Success(v.entries[Str(key)])
  }

  /** Whether Python can hash the value, as a dict key must be: lists and
      dicts cannot. */
  predicate Hashable(v: Value)
  {
    !v.List? && !v.Dict?
  }
}
