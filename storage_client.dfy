/** The storage client the services talk to, as a recorder of the calls it
    receives: the database behind it is not part of this model. */
module StorageClient {
  import opened Values
  import opened FixedDicts
  import opened StorageFilters

  /** A call to `save`, with the contents of its parameters when it was made. */
  datatype SaveCall = SaveCall(item: Value, existFilter: FilterType, existParams: map<string, Value>)

  /** A call to `get`, with the contents of each parameter object when it was made. */
  datatype GetCall = GetCall(filterTypes: seq<FilterType>, filtersParams: seq<map<string, Value>>)

  class RecordingStorage {
    var saves: seq<SaveCall>
    var gets: seq<GetCall>

    constructor ()
      ensures saves == [] && gets == []
    {
      saves, gets := [], [];
    }

    /** `save(item, exist_filter, exist_params)`. */
    method Save(item: Value, existFilter: FilterType, existParams: FixedDict)
      modifies this
      ensures saves == old(saves) + [SaveCall(item, existFilter, existParams.data.entries)]
      ensures gets == old(gets)
    {
      saves := saves + [SaveCall(item, existFilter, existParams.data.entries)];
    }

    /** `get(filter_types, filters_params)`. */
    method Get(filterTypes: seq<FilterType>, filtersParams: seq<FixedDict>)
      modifies this
      ensures saves == old(saves)
      ensures |gets| == |old(gets)| + 1 && gets[..|old(gets)|] == old(gets)
      ensures gets[|gets| - 1].filterTypes == filterTypes
      ensures |gets[|gets| - 1].filtersParams| == |filtersParams|
      ensures forall i :: 0 <= i < |filtersParams| ==> gets[|gets| - 1].filtersParams[i] == filtersParams[i].data.entries
    {
      var snapshot := [];
      for i := 0 to |filtersParams|
        invariant |snapshot| == i
        invariant forall j :: 0 <= j < i ==> snapshot[j] == filtersParams[j].data.entries
      {
        snapshot := snapshot + [filtersParams[i].data.entries];
      }
      gets := gets + [GetCall(filterTypes, snapshot)];
    }
  }
}
