/** What a request asks for, said of a row and without a statement; and the
    compiled conditions, read with the values bound for them, asking just that
    (packages/engine/src/query/conditions.ts, query-builder.ts:86-96). */
module Asking {
  import opened Outcomes
  import opened Definitions
  import opened Statements
  import opened Columns
  import opened Conditions
  import opened QueryBuilder
  import Search

  // -------------------------------------------------------- the plain question

  ghost predicate Says(fold: char -> char, cell: Value, term: string) {
    cell.Text? && Search.Contains(Search.Folded(fold, cell.text), Search.Folded(fold, term))
  }

  ghost predicate SaysSomewhere(fold: char -> char, row: Row, columns: seq<Key>, term: string) {
    exists i :: 0 <= i < |columns| && Says(fold, Cell(row, columns[i]), term)
  }

  predicate NoEarlier(pg: Postgres, cell: Value, from: Option<string>) {
    from.Some? ==> cell != Null && pg.le(Text(from.value), cell)
  }

  predicate NoLater(pg: Postgres, cell: Value, to: Option<string>) {
    to.Some? ==> cell != Null && pg.le(cell, Text(to.value))
  }

  /** One filter, met by what the row holds in its column. */
  predicate Meets(pg: Postgres, filter: Filter, cell: Value, value: FilterValue) {
    match value
    case Range(from, to) => NoEarlier(pg, cell, from) && NoLater(pg, cell, to)
    case Single(text) =>
      if filter.kind == BooleanFilter then Same(cell, Bool(text == "true")) else Same(cell, Text(text))
  }

  predicate MeetsAsked(pg: Postgres, resource: Resource, row: Row, asked: (Key, FilterValue)) {
    var declared := Declared(resource.view.filters);
    asked.0 in declared && Meets(pg, declared[asked.0], Cell(row, asked.0), asked.1)
  }

  /** A row the page is for: its owner's, found by the search, past every filter. */
  ghost predicate Wanted(pg: Postgres, resource: Resource, query: ListQuery, owner: Option<Ownership>, row: Row) {
    && (owner.Some? ==> Same(Cell(row, owner.value.field.key), owner.value.id))
    && (query.search.Some? ==> SaysSomewhere(pg.fold, row, resource.view.search, query.search.value))
    && (forall i :: 0 <= i < |query.filter| ==> MeetsAsked(pg, resource, row, query.filter[i]))
  }

  // ---------------------------------------------------- the compiled question

  lemma HoldsAllOf(pg: Postgres, row: Row, a: seq<Condition>, b: seq<Condition>, values: seq<Value>)
    ensures HoldsAll(pg, row, a + b, values) <==> HoldsAll(pg, row, a, values) && HoldsAll(pg, row, b, values)
  {
    hide Holds;
    var all := a + b;
    if HoldsAll(pg, row, all, values) {
      forall i | 0 <= i < |a| ensures Holds(pg, row, a[i], values) { assert all[i] == a[i]; }
      forall i | 0 <= i < |b| ensures Holds(pg, row, b[i], values) { assert all[|a| + i] == b[i]; }
    }
  }

  lemma HoldsOne(pg: Postgres, row: Row, c: Condition, values: seq<Value>)
    ensures HoldsAll(pg, row, [c], values) <==> Holds(pg, row, c, values)
  {
    hide Holds;
    if HoldsAll(pg, row, [c], values) {
      assert Holds(pg, row, [c][0], values);
    }
  }

  /** The search condition finds rows that say the term somewhere. */
  lemma SearchMeans(
    pg: Postgres, resource: Resource, term: string, bound: seq<Value>, row: Row, values: seq<Value>)
    requires Search.KeepsMeta(pg.fold)
    requires Searched(resource, term, bound).Ok? && Searched(resource, term, bound).value.bound <= values
    ensures bound <= Searched(resource, term, bound).value.bound
    ensures HoldsAll(pg, row, Searched(resource, term, bound).value.conditions, values) <==>
            SaysSomewhere(pg.fold, row, resource.view.search, term)
  {
    var n := Searched(resource, term, bound).value;
    var c := AnyILike(resource.view.search, false, |n.bound|);
    assert n.conditions == [c];
    assert Bound(values, |n.bound|) == Text(Search.SearchPattern(term));
    HoldsOne(pg, row, c, values);
    forall i | 0 <= i < |resource.view.search|
      ensures Matches(pg, Cell(row, resource.view.search[i]), false, Bound(values, |n.bound|)) <==>
              Says(pg.fold, Cell(row, resource.view.search[i]), term)
    {
      var cell := Cell(row, resource.view.search[i]);
      if cell.Text? {
        Search.SearchIsSubstringSearch(pg.fold, cell.text, term);
      }
    }
    hide Matches, Says;
    assert Holds(pg, row, c, values) <==> SaysSomewhere(pg.fold, row, resource.view.search, term);
  }

  lemma FromMeans(pg: Postgres, end: Option<string>, parses: string -> bool, column: Key, n: Narrowed, row: Row, values: seq<Value>)
    requires RangeEnd(end, parses, true, column, n).Ok?
    requires RangeEnd(end, parses, true, column, n).value.bound <= values
    ensures n.bound <= RangeEnd(end, parses, true, column, n).value.bound
    ensures HoldsAll(pg, row, RangeEnd(end, parses, true, column, n).value.conditions, values) <==>
            HoldsAll(pg, row, n.conditions, values) && NoEarlier(pg, Cell(row, column), end)
  {
    if end.Some? {
      var c := AtLeast(column, |n.bound| + 1);
      HoldsAllOf(pg, row, n.conditions, [c], values);
      HoldsOne(pg, row, c, values);
    }
  }

  lemma ToMeans(pg: Postgres, end: Option<string>, parses: string -> bool, column: Key, n: Narrowed, row: Row, values: seq<Value>)
    requires RangeEnd(end, parses, false, column, n).Ok?
    requires RangeEnd(end, parses, false, column, n).value.bound <= values
    ensures n.bound <= RangeEnd(end, parses, false, column, n).value.bound
    ensures HoldsAll(pg, row, RangeEnd(end, parses, false, column, n).value.conditions, values) <==>
            HoldsAll(pg, row, n.conditions, values) && NoLater(pg, Cell(row, column), end)
  {
    if end.Some? {
      var c := AtMost(column, |n.bound| + 1);
      HoldsAllOf(pg, row, n.conditions, [c], values);
      HoldsOne(pg, row, c, values);
    }
  }

  lemma FilterMeans(
    pg: Postgres, filter: Filter, field: Field, value: FilterValue, parses: string -> bool, bound: seq<Value>, row: Row,
    values: seq<Value>)
    requires Filtered(filter, field, value, parses, bound).Ok?
    requires Filtered(filter, field, value, parses, bound).value.bound <= values
    ensures bound <= Filtered(filter, field, value, parses, bound).value.bound
    ensures HoldsAll(pg, row, Filtered(filter, field, value, parses, bound).value.conditions, values) <==>
            Meets(pg, filter, Cell(row, field.key), value)
  {
    hide HoldsAll;
    var n := Filtered(filter, field, value, parses, bound).value;
    if filter.kind == DateRangeFilter {
      var from := RangeEnd(value.from, parses, true, field.key, Narrowed([], bound)).value;
      ToMeans(pg, value.to, parses, field.key, from, row, values);
      FromMeans(pg, value.from, parses, field.key, Narrowed([], bound), row, values);
      NothingToHold(pg, row, values);
    } else {
      var wanted := if filter.kind == BooleanFilter then Bool(value.value == "true") else Text(value.value);
      assert n == Narrowed([Equal(field.key, |bound| + 1)], bound + [wanted]);
      HoldsOne(pg, row, Equal(field.key, |bound| + 1), values);
    }
  }

  lemma NothingToHold(pg: Postgres, row: Row, values: seq<Value>)
    ensures HoldsAll(pg, row, [], values)
  {
  }

  lemma {:induction false} FiltersMean(
    pg: Postgres, resource: Resource, requested: seq<(Key, FilterValue)>, parses: string -> bool, bound: seq<Value>,
    row: Row, values: seq<Value>)
    requires AllFiltered(resource, requested, parses, bound).Ok?
    requires AllFiltered(resource, requested, parses, bound).value.bound <= values
    ensures bound <= AllFiltered(resource, requested, parses, bound).value.bound
    ensures HoldsAll(pg, row, AllFiltered(resource, requested, parses, bound).value.conditions, values) <==>
            forall i :: 0 <= i < |requested| ==> MeetsAsked(pg, resource, row, requested[i])
  {
    hide HoldsAll, Filtered, Meets;
    if requested == [] {
      NothingToHold(pg, row, values);
    } else {
      var m := |requested| - 1;
      var init := requested[..m];
      var before := AllFiltered(resource, init, parses, bound).value;
      var (key, value) := requested[m];
      var declared := Declared(resource.view.filters);
      FieldsIndexed(resource.fields);
      var field := RequireField(resource, key).value;
      var last := Filtered(declared[key], field, value, parses, before.bound).value;
      FilterMeans(pg, declared[key], field, value, parses, before.bound, row, values);
      FiltersMean(pg, resource, init, parses, bound, row, values);
      HoldsAllOf(pg, row, before.conditions, last.conditions, values);
      assert MeetsAsked(pg, resource, row, requested[m]) <==> Meets(pg, declared[key], Cell(row, key), value);
      assert forall i :: 0 <= i < m ==> init[i] == requested[i];
    }
  }

  /** The compiled conditions hold of exactly the rows the request wants, with
      any values bound after them. */
  lemma NarrowingMeans(
    pg: Postgres, resource: Resource, query: ListQuery, owner: Option<Ownership>, parses: string -> bool, row: Row,
    values: seq<Value>)
    requires Search.KeepsMeta(pg.fold)
    requires Narrowing(resource, query, owner, parses).Ok?
    requires Narrowing(resource, query, owner, parses).value.bound <= values
    ensures HoldsAll(pg, row, Narrowing(resource, query, owner, parses).value.conditions, values) <==>
            Wanted(pg, resource, query, owner, row)
  {
    hide HoldsAll, Searched, AllFiltered, SaysSomewhere, MeetsAsked;
    var owned := OwnerNarrowed(owner);
    var searched := if query.search.None? then Narrowed([], owned.bound)
                    else Searched(resource, query.search.value, owned.bound).value;
    var filtered := AllFiltered(resource, query.filter, parses, searched.bound).value;
    FiltersMean(pg, resource, query.filter, parses, searched.bound, row, values);
    if query.search.Some? {
      SearchMeans(pg, resource, query.search.value, owned.bound, row, values);
    } else {
      NothingToHold(pg, row, values);
    }
    if owner.Some? {
      HoldsOne(pg, row, owned.conditions[0], values);
    } else {
      NothingToHold(pg, row, values);
    }
    HoldsAllOf(pg, row, owned.conditions + searched.conditions, filtered.conditions, values);
    HoldsAllOf(pg, row, owned.conditions, searched.conditions, values);
  }
}
