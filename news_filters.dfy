/** The news copy of `StorageFilterType.params`: every access builds a new
    FixedDict over a new dict, so callers never share parameters. */
module NewsFilters {
  import opened Wrappers
  import opened Values
  import opened FixedDicts
  import opened StorageFilters

  /** `params`: a new FixedDict with exactly the member's names, all None. */
  method Params(t: FilterType) returns (p: FixedDict)
    ensures fresh(p) && fresh(p.data)
    ensures p.data.entries == Template(t)
  {
    var data := new Dict(FromKeys(TemplateKeys(t), Null));
    p := new FixedDict(data);
  }

  /** A write to the parameters from one access is not seen by a later access,
    * which starts from None again; a name outside the template raises KeyError. */
  method ParamsAreFresh(t: FilterType, key: string, value: Value) returns (written: Outcome, later: map<string, Value>)
    ensures written == Pass <==> key in TemplateKeys(t)
    ensures written.Fail? ==> written.error == KeyError(key)
    ensures later == Template(t)
  {
    var first := Params(t);
    written := first.Set(key, value);
    var second := Params(t);
    later := second.data.entries;
  }
}
