/** `StorageFilterType`: the two kinds of storage filter, the name of the
    function that parses each, and the parameter names each takes. The news
    and event copies of the enum agree on all of this and differ only in how
    `params` hands the parameters out (modules NewsFilters and EventFilters). */
module StorageFilters {
  import opened Wrappers
  import opened Values

  datatype FilterType = Unique | Range

  /** The first element of the member's value: the parsing function's name. */
  function ParserName(t: FilterType): string
  {
    match t
    case Unique => "parse_unique"
    case Range => "parse_range"
  }

  /** The parameter names of the member's template, in order. */
  function TemplateKeys(t: FilterType): seq<string>
  {
    match t
    case Unique => ["key", "value"]
    case Range => ["key", "upper", "lower"]
  }

  /** `dict.fromkeys(keys, v)`: every listed key, each mapped to v. */
  function FromKeys(keys: seq<string>, v: Value): (m: map<string, Value>)
    ensures forall k :: k in m <==> k in keys
    ensures forall k :: k in m ==> m[k] == v
  {
    if keys == [] then map[] else FromKeys(keys[..|keys| - 1], v)[keys[|keys| - 1] := v]
  }

  /** The parameters of a fresh template: exactly the member's names, all None. */
  function Template(t: FilterType): (m: map<string, Value>)
    ensures t == Unique ==> m == map["key" := Null, "value" := Null]
    ensures t == Range ==> m == map["key" := Null, "upper" := Null, "lower" := Null]
  {
    FromKeys(TemplateKeys(t), Null)
  }

  /** `get_filter_implementation(cls)`: the attribute of `cls` named by the
      member, or AttributeError; `cls` is given by its attributes. */
  function GetFilterImplementation<F>(t: FilterType, cls: map<string, F>): (r: Result<F>)
    ensures r.Success? <==> ParserName(t) in cls
    ensures r.Success? ==> r.value == cls[ParserName(t)]
    ensures r.Failure? ==> r.error == AttributeError(ParserName(t))
  {
    var name := ParserName(t);
    if name in cls then Success(cls[name]) else Failure(AttributeError(name))
  }

  /** Writing every name of a template leaves nothing of its old values. */
  lemma OverwriteUnique(m: map<string, Value>, key: Value, value: Value)
    requires m.Keys == {"key", "value"}
    ensures m["key" := key]["value" := value] == map["key" := key, "value" := value]
  {
  }

  lemma OverwriteRange(m: map<string, Value>, key: Value, upper: Value, lower: Value)
    requires m.Keys == {"key", "upper", "lower"}
    ensures m["key" := key]["upper" := upper]["lower" := lower]
            == map["key" := key, "upper" := upper, "lower" := lower]
  {
  }
}
