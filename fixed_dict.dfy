/** `FixedDict`: a mutable mapping over a dict it does not own, whose values
    may change but whose keys may not. */
module FixedDicts {
  import opened Wrappers
  import opened Values

  /** A Python dict with string keys, as a heap object: whoever holds a
      reference sees every write. */
  class Dict {
    var entries: map<string, Value>

    constructor (entries: map<string, Value>)
      ensures this.entries == entries
    {
      this.entries := entries;
    }
  }

  class FixedDict {
    /** The wrapped dict, stored as given: the FixedDict and the caller share it. */
    const data: Dict

    constructor (data: Dict)
      ensures this.data == data
    {
      this.data := data;
    }

    /** `__len__`: the number of keys of the wrapped dict. */
    function Len(): nat
      reads this, data
    {
      |data.entries|
    }

    /** `__contains__`. */
    predicate Contains(key: string)
      reads this, data
    {
      key in data.entries
    }

    /** `__getitem__`: the stored value, or KeyError for a key not in the dict. */
    function Get(key: string): (r: Result<Value>)
      reads this, data
      ensures r.Success? <==> Contains(key)
      ensures r.Success? ==> r.value == data.entries[key]
      ensures r.Failure? ==> r.error == KeyError(key)
    {
      if key in data.entries then Success(data.entries[key]) else Failure(KeyError(key))
    }

    /** `__setitem__`: an existing key takes the new value and nothing else
      * changes; a key not in the dict raises KeyError and changes nothing. The
      * key set, and so the length, never changes. */
    method Set(key: string, value: Value) returns (outcome: Outcome)
      modifies data
      ensures outcome == Pass <==> old(Contains(key))
      ensures outcome.Fail? ==> outcome.error == KeyError(key) && data.entries == old(data.entries)
      ensures outcome == Pass ==> data.entries == old(data.entries)[key := value]
      ensures data.entries.Keys == old(data.entries.Keys) && Len() == old(Len())
    {
      if key !in data.entries {
        return Fail(KeyError(key));
      }
      data.entries := data.entries[key := value];
      outcome := Pass;
    }

    /** `__delitem__`: always refused, so no key is ever removed. */
    method Delete(key: string) returns (outcome: Outcome)
      ensures outcome == Fail(NotImplementedError)
    {
      outcome := Fail(NotImplementedError);
    }
  }

  /** The wrapped dict is not copied: a write through the FixedDict is seen
    * through the dict it was built from. */
  method WriteThrough(entries: map<string, Value>, key: string, value: Value) returns (seen: map<string, Value>)
    ensures key in entries ==> seen == entries[key := value]
    ensures key !in entries ==> seen == entries
  {
    var original := new Dict(entries);
    var fixed := new FixedDict(original);
    var outcome := fixed.Set(key, value);
    seen := original.entries;
  }
}
