/** The event copy of `StorageFilterType`: each member holds one FixedDict,
    built when the enum is defined, and `params` returns that same object on
    every access, so every caller writes to, and reads from, the same
    parameters. */
module EventFilters {
  import opened Wrappers
  import opened Values
  import opened FixedDicts
  import opened StorageFilters

  /** The two shared parameter objects of the enum. */
  class FilterTemplates {
    const unique: FixedDict
    const range: FixedDict

    /** The two templates are two distinct dicts, each with exactly its
      * member's names. Their values are whatever the last caller wrote. */
    ghost predicate Valid()
      reads this, unique, range, unique.data, range.data
    {
      && unique.data != range.data
      && unique.data.entries.Keys == {"key", "value"}
      && range.data.entries.Keys == {"key", "upper", "lower"}
    }

    /** Lines 16-17: the templates as the enum is defined, every value None. */
    constructor ()
      ensures Valid()
      ensures unique.data.entries == Template(Unique) && range.data.entries == Template(Range)
      ensures fresh(unique) && fresh(range) && fresh(unique.data) && fresh(range.data)
    {
      var uniqueData := new Dict(map["key" := Null, "value" := Null]);
      var rangeData := new Dict(map["key" := Null, "upper" := Null, "lower" := Null]);
      unique := new FixedDict(uniqueData);
      range := new FixedDict(rangeData);
    }

    /** `params`: the member's own shared object, whose names are the
      * template's, whatever earlier callers wrote into it. */
    function Params(t: FilterType): (p: FixedDict)
      reads this, unique, range, unique.data, range.data
      requires Valid()
      ensures p.data.entries.Keys == Template(t).Keys
      ensures p == (if t == Unique then unique else range)
    {
      if t == Unique then unique else range
    }

    /** A write through one access is seen by every later access to the same
      * member, and the names of both templates stay the same. */
    method ParamsAreShared(t: FilterType, key: string, value: Value) returns (written: Outcome, later: Result<Value>)
      requires Valid()
      modifies unique.data, range.data
      ensures Valid()
      ensures written == Pass <==> key in TemplateKeys(t)
      ensures written == Pass ==> later == Success(value)
      ensures written.Fail? ==> later == Failure(KeyError(key))
    {
      var first := Params(t);
      written := first.Set(key, value);
      var second := Params(t);
      later := second.Get(key);
    }
  }
}
