/** `NewsService`: the filters it builds on fresh parameter objects and the
    storage calls it makes with them. */
module NewsService {
  import opened Wrappers
  import opened Values
  import opened FixedDicts
  import opened StorageFilters
  import opened NewsFilters
  import opened StorageClient

  /** A news item: title, content, categories and publication timestamp. */
  datatype News = News(title: string, content: string, categories: seq<string>, date: real)

  /** `dict(new)`: the four fields by name, as the dataclass iterates them. */
  function Fields(n: News): Value
  {
    Dict(map[Str("title") := Str(n.title), Str("content") := Str(n.content),
             Str("categories") := List(seq(|n.categories|, i requires 0 <= i < |n.categories| => Str(n.categories[i]))),
             Str("date") := Real(n.date)])
  }

  /** The parameters of the date range filter. */
  function DateRangeParams(start: Value, end: Value): map<string, Value>
  {
    map["key" := Str("date"), "upper" := end, "lower" := start]
  }

  class NewsService {
    const client: RecordingStorage

    /** `__init__`; choosing the Mongo collection is left to the storage backend. */
    constructor (client: RecordingStorage)
      ensures this.client == client
    {
      this.client := client;
    }

    /** `save_new`: a save of the item's fields keyed on its title. */
    method SaveNew(n: News)
      modifies client
      ensures client.gets == old(client.gets)
      ensures client.saves
              == old(client.saves) + [SaveCall(Fields(n), Unique, map["key" := Str("title"), "value" := Str(n.title)])]
    {
      var existParams := Params(Unique);
      ghost var before := existParams.data.entries;
      assert before.Keys == {"key", "value"};
      var written := existParams.Set("key", Str("title"));
      written := existParams.Set("value", Str(n.title));
      OverwriteUnique(before, Str("title"), Str(n.title));
      client.Save(Fields(n), Unique, existParams);
    }

    /** Lines 55-58: a fresh RANGE parameter object with all three names written. */
    method FillRange(start: Value, end: Value) returns (p: FixedDict)
      ensures fresh(p) && fresh(p.data)
      ensures p.data.entries == DateRangeParams(start, end)
    {
      p := Params(Range);
      ghost var before := p.data.entries;
      assert before.Keys == {"key", "upper", "lower"};
      var written := p.Set("key", Str("date"));
      written := p.Set("upper", end);
      written := p.Set("lower", start);
      OverwriteRange(before, Str("date"), end, start);
    }

    /** `get_news` up to the storage call: no filter at all without a bound,
      * otherwise the date range alone, a missing bound staying None. The two
      * lists have the same length, 0 or 1. */
    method GetNews(start: Value, end: Value)
      modifies client
      ensures client.saves == old(client.saves)
      ensures |client.gets| == |old(client.gets)| + 1 && client.gets[..|old(client.gets)|] == old(client.gets)
      ensures start == Null && end == Null ==> client.gets[|client.gets| - 1] == GetCall([], [])
      ensures start != Null || end != Null ==>
                client.gets[|client.gets| - 1] == GetCall([Range], [DateRangeParams(start, end)])
    {
      var filterTypes: seq<FilterType> := [];
      var filtersParams: seq<FixedDict> := [];
      if start != Null || end != Null {
        var rangeParams := FillRange(start, end);
        filterTypes := filterTypes + [Range];
        filtersParams := filtersParams + [rangeParams];
      }
      ghost var expected := if start != Null || end != Null then [DateRangeParams(start, end)] else [];
      assert |filtersParams| == |expected|;
      assert forall i :: 0 <= i < |filtersParams| ==> filtersParams[i].data.entries == expected[i];
      client.Get(filterTypes, filtersParams);
      assert client.gets[|client.gets| - 1].filtersParams == expected;
    }
  }
}
