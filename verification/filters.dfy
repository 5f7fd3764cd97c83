/**
 * The dashboard filter parameters (widgets/filters/base.py and
 * widgets/filters/manager.py): each filter keeps a dictionary of parameters
 * that it updates in place, and the manager keeps its filters in insertion
 * order and merges their parameters, the last filter winning on a shared key.
 */
module Filters {
  import opened Wrappers

  /** `BaseFilter`: a dictionary of filter parameters, keyed by name. */
  class BaseFilter<V> {
    var filterParams: map<string, V>

    constructor ()
      ensures filterParams == map[]
    {
      filterParams := map[];
    }

    /** `get_param`: the value stored under `key`, or `None`. */
    function GetParam(key: string): (r: Option<V>)
      reads this
      ensures r.None? <==> key !in filterParams
      ensures r.Some? ==> r.value == filterParams[key]
    {
      if key in filterParams then Some(filterParams[key]) else None
    }

    /** `set_param`: store `value` under `key`, overwriting any earlier value. */
    method SetParam(key: string, value: V)
      modifies this
      ensures filterParams == old(filterParams)[key := value]
      ensures GetParam(key) == Some(value)
      ensures forall k :: k != key ==> GetParam(k) == old(GetParam(k))
    {
      filterParams := filterParams[key := value];
    }

    /** `clear_params`: afterwards no key has a value. */
    method ClearParams()
      modifies this
      ensures filterParams == map[]
      ensures forall k :: GetParam(k) == None
    {
      filterParams := map[];
    }
  }

  /** The exception `add_filter` raises. */
  datatype FilterError = TypeError(message: string)

  /** The argument of `add_filter`: a `BaseFilter` instance, or some other object. */
  datatype FilterArgument<V> = FilterInstance(instance: BaseFilter<V>) | NotAFilter

  /**
   * `Combine(ps)`: what successive `dict.update` calls with `ps[0]`,
   * `ps[1]`, ... leave in an initially empty dictionary.
   */
  function Combine<V>(ps: seq<map<string, V>>): map<string, V> {
    if ps == [] then map[] else Combine(ps[..|ps| - 1]) + ps[|ps| - 1]
  }

  /** `FilterManager`: a dictionary of filters that remembers insertion order. */
  class FilterManager<V> {
    /** The keys of `filters`, in insertion order. */
    var order: seq<string>
    var filters: map<string, BaseFilter<V>>

    ghost predicate Valid()
      reads this
    {
      && (forall k :: k in order <==> k in filters)
      && (forall i, j :: 0 <= i < j < |order| ==> order[i] != order[j])
    }

    /** The filters' parameter dictionaries, in insertion order. */
    ghost function ParamsInOrder(): seq<map<string, V>>
      reads this, filters.Values
      requires Valid()
    {
      seq(|order|, i reads this, filters.Values requires 0 <= i < |order| && Valid() => filters[order[i]].filterParams)
    }

    constructor ()
      ensures Valid() && order == [] && filters == map[]
    {
      order := [];
      filters := map[];
    }

    /**
     * `add_filter`: anything that is not a `BaseFilter` raises `TypeError` and
     * changes nothing; a new key is appended, an existing key keeps its place
     * and gets the new instance.
     */
    method AddFilter(key: string, argument: FilterArgument<V>) returns (error: Option<FilterError>)
      requires Valid()
      modifies this
      ensures Valid()
      ensures argument.NotAFilter? ==> error.Some? && order == old(order) && filters == old(filters)
      ensures argument.FilterInstance? ==>
                && error.None?
                && filters == old(filters)[key := argument.instance]
                && order == (if key in old(filters) then old(order) else old(order) + [key])
    {
      if argument.NotAFilter? {
        return Some(TypeError("Filter must be an instance of BaseFilter."));
      }
      if key !in filters {
        order := order + [key];
      }
      filters := filters[key := argument.instance];
      error := None;
    }

    /**
     * `get_combined_params`: a new dictionary holding every filter's
     * parameters, later filters overriding earlier ones; no filter changes.
     */
    method GetCombinedParams() returns (combined: map<string, V>)
      requires Valid()
      ensures combined == Combine(ParamsInOrder())
    {
      ghost var ps := ParamsInOrder();
      combined := map[];
      for i := 0 to |order|
        invariant combined == Combine(ps[..i])
      {
        assert ps[..i + 1][..i] == ps[..i] && ps[i] == filters[order[i]].filterParams;
        combined := combined + filters[order[i]].filterParams;
      }
      assert ps[..|order|] == ps;
    }
  }

  /** The keys of the combined parameters are exactly the keys of all the filters' parameters. */
  lemma {:induction false} CombineKeys<V>(ps: seq<map<string, V>>, key: string)
    ensures key in Combine(ps) <==> exists i :: 0 <= i < |ps| && key in ps[i]
  {
    if ps != [] {
      var init := ps[..|ps| - 1];
      CombineKeys(init, key);
      if exists i :: 0 <= i < |init| && key in init[i] {
        var i :| 0 <= i < |init| && key in init[i];
        assert ps[i] == init[i];
      }
      if exists i :: 0 <= i < |ps| && key in ps[i] {
        var i :| 0 <= i < |ps| && key in ps[i];
        if i < |init| {
          assert init[i] == ps[i];
        }
      }
    }
  }

  /** On a key set by several filters, the value of the last of them wins. */
  lemma {:induction false} CombineLastWins<V>(ps: seq<map<string, V>>, key: string, i: nat)
    requires i < |ps| && key in ps[i]
    requires forall j :: i < j < |ps| ==> key !in ps[j]
    ensures key in Combine(ps) && Combine(ps)[key] == ps[i][key]
  {
    if i < |ps| - 1 {
      CombineLastWins(ps[..|ps| - 1], key, i);
    }
  }
}
