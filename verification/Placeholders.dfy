/** Values never shape a statement: what a request supplies is bound, numbered in
    the order the statement names it, and named once
    (packages/engine/src/query/parameters.ts). */
module Placeholders {
  import opened Outcomes
  import opened Definitions
  import opened Statements
  import opened Columns
  import opened Conditions
  import opened QueryBuilder
  import opened RecordValues
  import opened WriteStatements

  // ------------------------------------------------- the slots a statement has

  function SlotsOf(conditions: seq<Condition>): (slots: seq<nat>)
    ensures |slots| == |conditions|
    ensures forall i :: 0 <= i < |slots| ==> slots[i] == conditions[i].slot
  {
    seq(|conditions|, i requires 0 <= i < |conditions| => conditions[i].slot)
  }

  function LimitSlots(limit: Limit): seq<nat> {
    match limit
    case First(_) => []
    case Page(size, offset) => [size, offset]
    case AtMostSlot(size) => [size]
  }

  /** In the order the text names them. */
  function SelectSlots(s: Select): seq<nat> {
    SlotsOf(s.conditions) + LimitSlots(s.limit)
  }

  /** An update's key is one slot, whichever half names it. */
  function WriteSlots(w: Write): seq<nat> {
    if w.Insert? then w.slots else w.slots + [w.keySlot]
  }

  /** Each of n values is named, once, in order, and nothing else is. */
  predicate NamesEach(slots: seq<nat>, n: nat) {
    slots == SlotsFor(n)
  }

  // ------------------------------------------------------------- narrowing

  /** The conditions so far name the values bound for them, and no others. */
  ghost predicate Numbered(n: Narrowed, from: nat) {
    && |n.bound| == from + |n.conditions|
    && forall i :: 0 <= i < |n.conditions| ==> n.conditions[i].slot == from + i + 1
  }

  lemma FilterIsNumbered(
    filter: Filter, field: Field, value: FilterValue, parses: string -> bool, bound: seq<Value>)
    requires Filtered(filter, field, value, parses, bound).Ok?
    ensures Numbered(Filtered(filter, field, value, parses, bound).value, |bound|)
  {
    if filter.kind == DateRangeFilter {
      var from := RangeEnd(value.from, parses, true, field.key, Narrowed([], bound)).value;
      assert Numbered(from, |bound|);
    }
  }

  lemma {:induction false} FiltersAreNumbered(
    r: Resource, requested: seq<(Key, FilterValue)>, parses: string -> bool, bound: seq<Value>)
    requires AllFiltered(r, requested, parses, bound).Ok?
    ensures Numbered(AllFiltered(r, requested, parses, bound).value, |bound|)
  {
    if requested != [] {
      hide Filtered;
      var n := |requested| - 1;
      FiltersAreNumbered(r, requested[..n], parses, bound);
      var before := AllFiltered(r, requested[..n], parses, bound).value;
      var (key, value) := requested[n];
      var filter, field := Declared(r.view.filters)[key], RequireField(r, key).value;
      FilterIsNumbered(filter, field, value, parses, before.bound);
      Appended(before, Filtered(filter, field, value, parses, before.bound).value, |bound|);
    }
  }

  lemma Appended(a: Narrowed, b: Narrowed, from: nat)
    requires Numbered(a, from) && Numbered(b, |a.bound|)
    ensures Numbered(Narrowed(a.conditions + b.conditions, b.bound), from)
  {
  }

  lemma NarrowingIsNumbered(r: Resource, query: ListQuery, owner: Option<Ownership>, parses: string -> bool)
    requires Narrowing(r, query, owner, parses).Ok?
    ensures Numbered(Narrowing(r, query, owner, parses).value, 0)
  {
    hide AllFiltered, RequireFields;
    var owned := OwnerNarrowed(owner);
    var searched := if query.search.None? then Narrowed([], owned.bound)
                    else Searched(r, query.search.value, owned.bound).value;
    FiltersAreNumbered(r, query.filter, parses, searched.bound);
    var filtered := AllFiltered(r, query.filter, parses, searched.bound).value;
    assert Numbered(owned, 0) && Numbered(searched, |owned.bound|);
    Appended(owned, searched, 0);
    Appended(Narrowed(owned.conditions + searched.conditions, searched.bound), filtered, 0);
  }

  /** A page names each of its values once, in order; its count names those that
      narrow it, which is every value bound before the limit and the offset. */
  lemma APageNamesItsValues(
    resources: Resources, r: Resource, query: ListQuery, owner: Option<Ownership>, parses: string -> bool)
    requires CompiledRecords(resources, r, query, owner, parses).Ok?
    ensures var q := CompiledRecords(resources, r, query, owner, parses).value;
      && NamesEach(SelectSlots(q.rows.statement), |q.rows.values|)
      && NamesEach(SlotsOf(q.total.statement.conditions), |q.total.values|)
      && q.rows.values == q.total.values + [Int(query.pageSize), Int((query.page - 1) * query.pageSize)]
  {
    hide Narrowing, Selected, ListFields, Ordered;
    NarrowingIsNumbered(r, query, owner, parses);
  }

  lemma AnOptionListNamesItsValues(r: Resource, term: Option<string>)
    requires CompiledOptions(r, term).Ok?
    ensures var q := CompiledOptions(r, term).value; NamesEach(SelectSlots(q.statement), |q.values|)
  {
    hide IdentityField, LabelField;
  }

  lemma AReadNamesItsKey(resources: Resources, r: Resource, id: Value, field: Field)
    ensures CompiledRecord(resources, r, id).Ok? ==>
      NamesEach(SelectSlots(CompiledRecord(resources, r, id).value.statement), |CompiledRecord(resources, r, id).value.values|)
    ensures CompiledLookup(r, id, field).Ok? ==>
      NamesEach(SelectSlots(CompiledLookup(r, id, field).value.statement), |CompiledLookup(r, id, field).value.values|)
  {
    hide Selected, IdentityField;
  }

  lemma AWriteNamesItsValues(resources: Resources, r: Resource, assignments: seq<Assignment>, id: Value)
    ensures CompiledInsert(resources, r, assignments).Ok? ==>
      var q := CompiledInsert(resources, r, assignments).value; NamesEach(WriteSlots(q.statement), |q.values|)
    ensures CompiledUpdate(resources, r, assignments, id).Ok? ==>
      var q := CompiledUpdate(resources, r, assignments, id).value; NamesEach(WriteSlots(q.statement), |q.values|)
  {
    hide Selected, IdentityField, RefuseUnwritable, Values, ReturningList;
  }

  lemma AnActionNamesItsValues(r: Resource, field: Field, value: Value, id: Value)
    requires CompiledSetField(r, field, value, id).Ok?
    ensures var q := CompiledSetField(r, field, value, id).value; NamesEach(WriteSlots(q.statement), |q.values|)
  {
    hide IdentityField;
  }

  // ----------------------------------------------------------------- shapes

  predicate SameEnds(a: FilterValue, b: FilterValue) {
    match (a, b)
    case (Single(_), Single(_)) => true
    case (Range(af, at), Range(bf, bt)) => af.Some? == bf.Some? && at.Some? == bt.Some?
    case _ => false
  }

  /** Two requests that name the same fields and differ only in what they say. */
  ghost predicate SameShape(a: ListQuery, b: ListQuery) {
    && a.sort == b.sort && a.descending == b.descending
    && a.search.Some? == b.search.Some?
    && |a.filter| == |b.filter|
    && forall i :: 0 <= i < |a.filter| ==> a.filter[i].0 == b.filter[i].0 && SameEnds(a.filter[i].1, b.filter[i].1)
  }

  ghost predicate SameOwner(a: Option<Ownership>, b: Option<Ownership>) {
    a.Some? == b.Some? && (a.Some? ==> a.value.field == b.value.field)
  }

  lemma SameFilter(
    filter: Filter, field: Field, a: FilterValue, b: FilterValue, parses: string -> bool, ba: seq<Value>, bb: seq<Value>)
    requires SameEnds(a, b) && |ba| == |bb|
    requires Filtered(filter, field, a, parses, ba).Ok? && Filtered(filter, field, b, parses, bb).Ok?
    ensures Filtered(filter, field, a, parses, ba).value.conditions == Filtered(filter, field, b, parses, bb).value.conditions
  {
  }

  lemma {:induction false} SameFilters(
    r: Resource, a: seq<(Key, FilterValue)>, b: seq<(Key, FilterValue)>, parses: string -> bool, ba: seq<Value>, bb: seq<Value>)
    requires |a| == |b| && |ba| == |bb|
    requires forall i :: 0 <= i < |a| ==> a[i].0 == b[i].0 && SameEnds(a[i].1, b[i].1)
    requires AllFiltered(r, a, parses, ba).Ok? && AllFiltered(r, b, parses, bb).Ok?
    ensures AllFiltered(r, a, parses, ba).value.conditions == AllFiltered(r, b, parses, bb).value.conditions
  {
    if a != [] {
      hide Filtered, SameEnds;
      var n := |a| - 1;
      SameFilters(r, a[..n], b[..n], parses, ba, bb);
      FiltersAreNumbered(r, a[..n], parses, ba);
      FiltersAreNumbered(r, b[..n], parses, bb);
      var ia, ib := AllFiltered(r, a[..n], parses, ba).value, AllFiltered(r, b[..n], parses, bb).value;
      var filter, field := Declared(r.view.filters)[a[n].0], RequireField(r, a[n].0).value;
      SameFilter(filter, field, a[n].1, b[n].1, parses, ia.bound, ib.bound);
    }
  }

  lemma SameNarrowing(
    r: Resource, a: ListQuery, b: ListQuery, oa: Option<Ownership>, ob: Option<Ownership>, parses: string -> bool)
    requires SameShape(a, b) && SameOwner(oa, ob)
    requires Narrowing(r, a, oa, parses).Ok? && Narrowing(r, b, ob, parses).Ok?
    ensures Narrowing(r, a, oa, parses).value.conditions == Narrowing(r, b, ob, parses).value.conditions
  {
    hide AllFiltered, RequireFields, SameEnds;
    var na, nb := OwnerNarrowed(oa), OwnerNarrowed(ob);
    var sa := if a.search.None? then Narrowed([], na.bound) else Searched(r, a.search.value, na.bound).value;
    var sb := if b.search.None? then Narrowed([], nb.bound) else Searched(r, b.search.value, nb.bound).value;
    SameFilters(r, a.filter, b.filter, parses, sa.bound, sb.bound);
  }

  /** Requests of one shape are one statement, and one count, whatever values,
      page and owner they carry. */
  lemma OneShapeOneStatement(
    resources: Resources, r: Resource, a: ListQuery, b: ListQuery, oa: Option<Ownership>, ob: Option<Ownership>,
    parses: string -> bool)
    requires SameShape(a, b) && SameOwner(oa, ob)
    requires CompiledRecords(resources, r, a, oa, parses).Ok? && CompiledRecords(resources, r, b, ob, parses).Ok?
    ensures var qa, qb :=
              CompiledRecords(resources, r, a, oa, parses).value, CompiledRecords(resources, r, b, ob, parses).value;
            qa.rows.statement == qb.rows.statement && qa.total.statement == qb.total.statement
  {
    hide Narrowing, Selected, ListFields, IdentityField;
    SameNarrowing(r, a, b, oa, ob, parses);
    NarrowingIsNumbered(r, a, oa, parses);
    NarrowingIsNumbered(r, b, ob, parses);
  }

  /** Writes of the same fields are one statement, whatever they put in them. */
  lemma SameFieldsOneStatement(
    resources: Resources, r: Resource, a: seq<Assignment>, b: seq<Assignment>, ia: Value, ib: Value)
    requires FieldsOf(a) == FieldsOf(b)
    ensures var x, y := CompiledInsert(resources, r, a), CompiledInsert(resources, r, b);
            x.Ok? && y.Ok? ==> x.value.statement == y.value.statement
    ensures var x, y := CompiledUpdate(resources, r, a, ia), CompiledUpdate(resources, r, b, ib);
            x.Ok? && y.Ok? ==> x.value.statement == y.value.statement
  {
    hide Selected, IdentityField, RefuseUnwritable, Values, ReturningList;
    assert |a| == |FieldsOf(a)| == |b|;
    forall i | 0 <= i < |a| ensures a[i].field == b[i].field {
      assert FieldsOf(a)[i] == FieldsOf(b)[i];
    }
    assert KeysOf(a) == KeysOf(b);
  }
}
