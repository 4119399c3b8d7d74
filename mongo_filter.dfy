/** `MongoFilter`: the Mongo query each kind of storage filter stands for. */
module MongoFilter {
  import opened Wrappers
  import opened Values
  import opened FixedDicts
  import opened StorageFilters

  /** A Mongo query document: field name to condition. */
  type Query = map<Value, Value>

  /** `parse_unique`: the one-entry query `{params['key']: params['value']}`;
      a missing name raises KeyError, 'key' being read first. Both are read
      before the key is hashed, so a list or dict under 'key' raises
      TypeError only when 'value' is present. */
  function ParseUnique(params: FixedDict): (r: Result<Query>)
    reads params, params.data
    ensures r.Success? <==> params.Contains("key") && params.Contains("value")
                            && Hashable(params.data.entries["key"])
    ensures r.Success? ==> |r.value| == 1 && params.data.entries["key"] in r.value
                           && r.value[params.data.entries["key"]] == params.data.entries["value"]
    ensures !params.Contains("key") ==> r == Failure(KeyError("key"))
    ensures params.Contains("key") && !params.Contains("value") ==> r == Failure(KeyError("value"))
    ensures params.Contains("key") && params.Contains("value") && !Hashable(params.data.entries["key"])
            ==> r == Failure(TypeError)
  {
    var field :- params.Get("key");
    var value :- params.Get("value");
    if Hashable(field) then Success(map[field := value]) else Failure(TypeError)
  }

  /** `parse_range`: one entry for `params['key']`, whose condition holds a
    * strict lower bound `$gt` exactly when 'lower' is given and not None and a
    * strict upper bound `$lt` exactly when 'upper' is; with neither, the
    * condition is empty. A missing 'key' raises KeyError, and a list or dict
    * under 'key' raises TypeError when the query is built. */
  method ParseRange(params: FixedDict) returns (r: Result<Query>)
    ensures r.Success? <==> params.Contains("key") && Hashable(params.data.entries["key"])
    ensures r.Failure? ==> r.error == (if params.Contains("key") then TypeError else KeyError("key"))
    ensures r.Success? ==>
              var entries := params.data.entries;
              && r.value.Keys == {entries["key"]}
              && r.value[entries["key"]].Dict?
              && var condition := r.value[entries["key"]].entries;
                 && condition.Keys <= {Str("$gt"), Str("$lt")}
                 && (Str("$gt") in condition <==> "lower" in entries && entries["lower"] != Null)
                 && (Str("$gt") in condition ==> condition[Str("$gt")] == entries["lower"])
                 && (Str("$lt") in condition <==> "upper" in entries && entries["upper"] != Null)
                 && (Str("$lt") in condition ==> condition[Str("$lt")] == entries["upper"])
  {
    var condition: map<Value, Value> := map[];
    if params.Contains("lower") && params.Get("lower").value != Null {
      condition := condition[Str("$gt") := params.Get("lower").value];
    }
    if params.Contains("upper") && params.Get("upper").value != Null {
      condition := condition[Str("$lt") := params.Get("upper").value];
    }
    var field := params.Get("key");
    if field.Failure? {
      return Failure(field.error);
    }
    if !Hashable(field.value) {
      return Failure(TypeError);
    }
    r := Success(map[field.value := Dict(condition)]);
  }

  /** The parsing functions of the class, by attribute name. */
  datatype Parser = ParseUniqueParser | ParseRangeParser

  const Attributes: map<string, Parser> :=
    map["parse_unique" := ParseUniqueParser, "parse_range" := ParseRangeParser]

  /** `get_filter_implementation(MongoFilter)` never raises: every filter type
    * finds its parser, `parse_unique` for UNIQUE and `parse_range` for RANGE. */
  lemma FilterImplementations()
    ensures forall t: FilterType :: GetFilterImplementation(t, Attributes)
              == Success(if t == Unique then ParseUniqueParser else ParseRangeParser)
  {
  }
}
