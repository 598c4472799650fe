/** What narrows a page, and the parameters it binds
    (packages/engine/src/query/conditions.ts, parameters.ts). */
module Conditions {
  import opened Outcomes
  import opened Definitions
  import opened Statements
  import opened Columns
  import Search

  /** The bound values of one statement, numbered as they are added. */
  class Parameters {
    var bound: seq<Value>

    constructor ()
      ensures bound == []
    {
      bound := [];
    }

    method Bind(value: Value) returns (slot: nat)
      modifies this
      ensures bound == old(bound) + [value]
      ensures slot == |bound|
    {
      bound := bound + [value];
      slot := |bound|;
    }
  }

  /** What one filter carries (packages/contracts/src/runtime/requests.ts:18). */
  datatype FilterValue = Single(value: string) | Range(from: Option<string>, to: Option<string>)

  /** Conditions, and the values bound once they have been written. */
  datatype Narrowed = Narrowed(conditions: seq<Condition>, bound: seq<Value>)

  function Searched(resource: Resource, term: string, bound: seq<Value>): Outcome<Narrowed> {
    if resource.view.search == [] then Err(InvalidQuery)
    else
      var fields :- RequireFields(resource, resource.view.search);
      var bound' := bound + [Text(Search.SearchPattern(term))];
      Ok(Narrowed([AnyILike(resource.view.search, false, |bound'|)], bound'))
  }

  method SearchCondition(resource: Resource, term: string, parameters: Parameters)
    returns (r: Outcome<Condition>)
    modifies parameters
    ensures match Searched(resource, term, old(parameters.bound))
            case Ok(narrowed) => r.Ok? && [r.value] == narrowed.conditions && parameters.bound == narrowed.bound
            case Err(failure) => r == Err(failure)
  {
    var searchable := resource.view.search;
    if searchable == [] {
      return Err(InvalidQuery);
    }
    var slot := parameters.Bind(Text(Search.SearchPattern(term)));
    var named := RequireFields(resource, searchable);
    if named.Err? {
      return Err(named.failure);
    }
    return Ok(AnyILike(searchable, false, slot));
  }

  /** `new Map(filters.map(...))`: the later of two filters on one field. */
  function Declared(filters: seq<Filter>): map<Key, Filter> {
    if filters == [] then map[]
    else
      var last := filters[|filters| - 1];
      Declared(filters[..|filters| - 1])[last.field := last]
  }

  lemma {:induction false} TheLastDeclaredStands(filters: seq<Filter>, i: nat)
    requires i < |filters| && forall j :: i < j < |filters| ==> filters[j].field != filters[i].field
    ensures filters[i].field in Declared(filters) && Declared(filters)[filters[i].field] == filters[i]
  {
    if i < |filters| - 1 {
      TheLastDeclaredStands(filters[..|filters| - 1], i);
    }
  }

  /** One end of a range: absent, unreadable, or a condition and its value. */
  function RangeEnd(end: Option<string>, parses: string -> bool, lower: bool, column: Key, n: Narrowed): Outcome<Narrowed> {
    if end.None? then Ok(n)
    else if !parses(end.value) then Err(InvalidQuery)
    else
      var slot := |n.bound| + 1;
      Ok(Narrowed(
        n.conditions + [if lower then AtLeast(column, slot) else AtMost(column, slot)],
        n.bound + [Text(end.value)]))
  }

  function DateRange(column: Key, value: FilterValue, parses: string -> bool, bound: seq<Value>): Outcome<Narrowed>
    requires value.Range?
  {
    var from :- RangeEnd(value.from, parses, true, column, Narrowed([], bound));
    var both :- RangeEnd(value.to, parses, false, column, from);
    if both.conditions == [] then Err(InvalidQuery) else Ok(both)
  }

  function OneEqual(column: Key, value: Value, bound: seq<Value>): Outcome<Narrowed> {
    Ok(Narrowed([Equal(column, |bound| + 1)], bound + [value]))
  }

  function Filtered(
    filter: Filter, field: Field, value: FilterValue, parses: string -> bool, bound: seq<Value>): Outcome<Narrowed>
  {
    if filter.kind.DateRangeFilter? then
      if value.Single? then Err(InvalidQuery) else DateRange(field.key, value, parses, bound)
    else if value.Range? then Err(InvalidQuery)
    else
      match filter.kind
      case EnumFilter =>
        if !field.kind.Enum? then Err(Bug)
        else if value.value !in field.kind.values then Err(InvalidQuery)
        else OneEqual(field.key, Text(value.value), bound)
      case BooleanFilter =>
        if value.value != "true" && value.value != "false" then Err(InvalidQuery)
        else OneEqual(field.key, Bool(value.value == "true"), bound)
      case RelationFilter =>
        OneEqual(field.key, Text(value.value), bound)
  }

  /** The filters of a request narrowed by from first to last, each binding after
      the ones before it; the first refusal is the answer. */
  function AllFiltered(
    resource: Resource, requested: seq<(Key, FilterValue)>, parses: string -> bool, bound: seq<Value>): Outcome<Narrowed>
  {
    if requested == [] then Ok(Narrowed([], bound))
    else
      var init :- AllFiltered(resource, requested[..|requested| - 1], parses, bound);
      var (key, value) := requested[|requested| - 1];
      var declared := Declared(resource.view.filters);
      if key !in declared then Err(InvalidQuery)
      else
        var field :- RequireField(resource, key);
        var last :- Filtered(declared[key], field, value, parses, init.bound);
        Ok(Narrowed(init.conditions + last.conditions, last.bound))
  }

  method ConditionsFor(
    filter: Filter, field: Field, value: FilterValue, parses: string -> bool, parameters: Parameters)
    returns (r: Outcome<seq<Condition>>)
    modifies parameters
    ensures match Filtered(filter, field, value, parses, old(parameters.bound))
            case Ok(narrowed) => r == Ok(narrowed.conditions) && parameters.bound == narrowed.bound
            case Err(failure) => r == Err(failure)
  {
    if filter.kind.DateRangeFilter? {
      if value.Single? {
        return Err(InvalidQuery);
      }
      var conditions: seq<Condition> := [];
      if value.from.Some? {
        if !parses(value.from.value) {
          return Err(InvalidQuery);
        }
        var slot := parameters.Bind(Text(value.from.value));
        conditions := conditions + [AtLeast(field.key, slot)];
      }
      if value.to.Some? {
        if !parses(value.to.value) {
          return Err(InvalidQuery);
        }
        var slot := parameters.Bind(Text(value.to.value));
        conditions := conditions + [AtMost(field.key, slot)];
      }
      return if conditions == [] then Err(InvalidQuery) else Ok(conditions);
    }

    if value.Range? {
      return Err(InvalidQuery);
    }
    var raw := value.value;
    if filter.kind.EnumFilter? {
      if !field.kind.Enum? {
        return Err(Bug);
      }
      if raw !in field.kind.values {
        return Err(InvalidQuery);
      }
      var slot := parameters.Bind(Text(raw));
      return Ok([Equal(field.key, slot)]);
    }
    if filter.kind.BooleanFilter? {
      if raw != "true" && raw != "false" {
        return Err(InvalidQuery);
      }
      var slot := parameters.Bind(Bool(raw == "true"));
      return Ok([Equal(field.key, slot)]);
    }
    var slot := parameters.Bind(Text(raw));
    return Ok([Equal(field.key, slot)]);
  }

  method FilterConditions(
    resource: Resource, requested: seq<(Key, FilterValue)>, parses: string -> bool, parameters: Parameters)
    returns (r: Outcome<seq<Condition>>)
    modifies parameters
    ensures match AllFiltered(resource, requested, parses, old(parameters.bound))
            case Ok(narrowed) => r == Ok(narrowed.conditions) && parameters.bound == narrowed.bound
            case Err(failure) => r == Err(failure)
  {
    ghost var bound := parameters.bound;
    var declared := Declared(resource.view.filters);
    var conditions: seq<Condition> := [];
    for i := 0 to |requested|
      invariant AllFiltered(resource, requested[..i], parses, bound) == Ok(Narrowed(conditions, parameters.bound))
    {
      assert requested[..i + 1][..i] == requested[..i];
      var (key, value) := requested[i];
      if key !in declared {
        FilteringFailsEarly(resource, requested, i + 1, parses, bound);
        return Err(InvalidQuery);
      }
      var field := RequireField(resource, key);
      if field.Err? {
        FilteringFailsEarly(resource, requested, i + 1, parses, bound);
        return Err(field.failure);
      }
      var narrowed := ConditionsFor(declared[key], field.value, value, parses, parameters);
      if narrowed.Err? {
        FilteringFailsEarly(resource, requested, i + 1, parses, bound);
        return Err(narrowed.failure);
      }
      conditions := conditions + narrowed.value;
    }
    assert requested[..|requested|] == requested;
    return Ok(conditions);
  }

  lemma {:induction false} FilteringFailsEarly(
    resource: Resource, requested: seq<(Key, FilterValue)>, n: nat, parses: string -> bool, bound: seq<Value>)
    requires n <= |requested|
    requires AllFiltered(resource, requested[..n], parses, bound).Err?
    ensures AllFiltered(resource, requested, parses, bound) == AllFiltered(resource, requested[..n], parses, bound)
    decreases |requested|
  {
    if n == |requested| {
      assert requested[..n] == requested;
    } else {
      var init := requested[..|requested| - 1];
      assert init[..n] == requested[..n];
      FilteringFailsEarly(resource, init, n, parses, bound);
    }
  }
}
