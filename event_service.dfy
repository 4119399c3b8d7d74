/** `EventService`: the filters it builds on the enum's shared parameter
    objects and the storage calls it makes with them. */
module EventService {
  import opened Wrappers
  import opened Values
  import opened FixedDicts
  import opened StorageFilters
  import opened EventFilters
  import opened StorageClient

  /** The parameters of the sell-mode filter every query ends with. */
  const OnlineParams: map<string, Value> := map["key" := Str("base_event.sell_mode"), "value" := Str("online")]

  /** The parameters of the date range filter. */
  function DateRangeParams(start: Value, end: Value): map<string, Value>
  {
    map["key" := Str("base_event.event.event_date"), "upper" := end, "lower" := start]
  }

  /** `event['base_event']['base_event_id']`. */
  function EventId(event: Value): Result<Value>
  {
    var base :- Subscript(event, "base_event");
    Subscript(base, "base_event_id")
  }

  class EventService {
    const client: RecordingStorage
    /** The enum's two shared parameter objects, which every service uses. */
    const filters: FilterTemplates

    ghost predicate Valid()
      reads this, filters, filters.unique, filters.range, filters.unique.data, filters.range.data
    {
      filters.Valid()
    }

    /** `__init__`; choosing the Mongo collection is left to the storage backend. */
    constructor (client: RecordingStorage, filters: FilterTemplates)
      requires filters.Valid()
      ensures this.client == client && this.filters == filters && Valid()
    {
      this.client := client;
      this.filters := filters;
    }

    /** Lines 37-39 and 64-66: both UNIQUE parameters overwritten. */
    method FillUnique(key: Value, value: Value) returns (p: FixedDict)
      requires Valid()
      modifies filters.unique.data
      ensures Valid() && p == filters.unique
      ensures p.data.entries == map["key" := key, "value" := value]
    {
      p := filters.Params(Unique);
      ghost var before := p.data.entries;
      var written := p.Set("key", key);
      written := p.Set("value", value);
      OverwriteUnique(before, key, value);
    }

    /** Lines 56-59: all three RANGE parameters overwritten. */
    method FillRange(start: Value, end: Value) returns (p: FixedDict)
      requires Valid()
      modifies filters.range.data
      ensures Valid() && p == filters.range
      ensures p.data.entries == DateRangeParams(start, end)
    {
      p := filters.Params(Range);
      ghost var before := p.data.entries;
      var written := p.Set("key", Str("base_event.event.event_date"));
      written := p.Set("upper", end);
      written := p.Set("lower", start);
      OverwriteRange(before, Str("base_event.event.event_date"), end, start);
    }

    /** `save_event`: a save keyed on the event's `base_event_id`. The shared
      * UNIQUE parameters are both overwritten first, so nothing an earlier
      * caller left in them reaches storage. When the event has no id, the
      * lookup raises after 'key' was written and before 'value' was, and
      * nothing is saved. Whatever happens, the UNIQUE object keeps the values
      * written here for every later caller, and RANGE is not touched. */
    method SaveEvent(event: Value) returns (outcome: Outcome)
      requires Valid()
      modifies filters.unique.data, client
      ensures Valid()
      ensures client.gets == old(client.gets)
      ensures filters.range.data.entries == old(filters.range.data.entries)
      ensures EventId(event).Success? ==>
                && outcome == Pass
                && client.saves == old(client.saves)
                   + [SaveCall(event, Unique, map["key" := Str("base_event.base_event_id"),
                                                   "value" := EventId(event).value])]
                && filters.unique.data.entries
                   == map["key" := Str("base_event.base_event_id"), "value" := EventId(event).value]
      ensures EventId(event).Failure? ==>
                && outcome == Fail(EventId(event).error)
                && client.saves == old(client.saves)
                && filters.unique.data.entries
                   == old(filters.unique.data.entries)["key" := Str("base_event.base_event_id")]
    {
      var id := EventId(event);
      if id.Failure? {
        var existParams := filters.Params(Unique);
        var written := existParams.Set("key", Str("base_event.base_event_id"));
        return Fail(id.error);
      }
      var existParams := FillUnique(Str("base_event.base_event_id"), id.value);
      client.Save(event, Unique, existParams);
      outcome := Pass;
    }

    /** `get_events` up to the storage call: with no bound, the sell-mode
      * filter alone; with either bound, the date range (a missing bound
      * staying None) and then the sell-mode filter. The two lists have the
      * same length, and every parameter of both shared objects is written
      * before the call. Afterwards UNIQUE holds the sell-mode filter and RANGE
      * the date range, or, with no bound, whatever an earlier caller left. */
    method GetEvents(start: Value, end: Value)
      requires Valid()
      modifies filters.unique.data, filters.range.data, client
      ensures Valid()
      ensures client.saves == old(client.saves)
      ensures |client.gets| == |old(client.gets)| + 1 && client.gets[..|old(client.gets)|] == old(client.gets)
      ensures start == Null && end == Null ==>
                client.gets[|client.gets| - 1] == GetCall([Unique], [OnlineParams])
      ensures start != Null || end != Null ==>
                client.gets[|client.gets| - 1]
                == GetCall([Range, Unique], [DateRangeParams(start, end), OnlineParams])
      ensures filters.unique.data.entries == OnlineParams
      ensures start != Null || end != Null ==> filters.range.data.entries == DateRangeParams(start, end)
      ensures start == Null && end == Null ==> filters.range.data.entries == old(filters.range.data.entries)
    {
      var filterTypes: seq<FilterType> := [];
      var filtersParams: seq<FixedDict> := [];
      if start != Null || end != Null {
        var rangeParams := FillRange(start, end);
        filterTypes := filterTypes + [Range];
        filtersParams := filtersParams + [rangeParams];
      }
      var uniqueParams := FillUnique(Str("base_event.sell_mode"), Str("online"));
      filterTypes := filterTypes + [Unique];
      filtersParams := filtersParams + [uniqueParams];
      ghost var expected := if start != Null || end != Null then [DateRangeParams(start, end), OnlineParams]
                            else [OnlineParams];
      assert |filtersParams| == |expected|;
      assert forall i :: 0 <= i < |filtersParams| ==> filtersParams[i].data.entries == expected[i];
      client.Get(filterTypes, filtersParams);
      assert client.gets[|client.gets| - 1].filtersParams == expected;
    }
  }
}
