/** Sensitive columns have no say: for a valid definition every statement mentions
    public columns only, in what it selects and returns, the labels it joins for,
    the conditions it sets, the order it asks for and the columns it assigns. So
    two databases that differ in nothing else answer any run of requests alike,
    and no write changes a secret. */
module Blindness {
  import opened Outcomes
  import opened Definitions
  import opened Statements
  import opened Columns
  import opened Conditions
  import opened QueryBuilder
  import opened RecordValues
  import opened WriteStatements
  import opened Validity
  import opened Servable
  import opened Openness

  /** The columns of a table that some resource over it declares and does not
      mark sensitive. */
  function Open(resources: Resources, table: Key): set<Key> {
    set r, f | r in resources.Values && r.table == table && f in r.fields && !f.sensitive :: f.key
  }

  ghost function Opens(resources: Resources): Public {
    t => Open(resources, t)
  }

  function Tables(resources: Resources): set<Key> {
    set r | r in resources.Values :: r.table
  }

  lemma FieldIsOpen(resources: Resources, r: Resource, f: Field)
    requires r in resources.Values && f in r.fields && !f.sensitive
    ensures f.key in Opens(resources)(r.table) && r.table in Tables(resources)
  {
  }

  /** A record is addressed and named by public columns. */
  ghost predicate NamesOpenly(resources: Resources) {
    forall k :: k in resources ==>
      && resources[k].primaryKey in Open(resources, resources[k].table)
      && resources[k].table in Tables(resources)
      && LabelField(resources[k]).Ok?
      && LabelField(resources[k]).value.key in Open(resources, resources[k].table)
  }

  lemma ValidNamesOpenly(definition: Definition)
    requires Valid(definition)
    ensures NamesOpenly(IndexResources(definition.resources))
  {
    hide Valid, ValidResource, LabelField, IdentityField, Open, Tables;
    var resources := IndexResources(definition.resources);
    forall k | k in resources
      ensures resources[k].primaryKey in Open(resources, resources[k].table) && resources[k].table in Tables(resources)
      ensures LabelField(resources[k]).Ok? && LabelField(resources[k]).value.key in Open(resources, resources[k].table)
    {
      var r := resources[k];
      Indexed(definition, k);
      KeyIsServed(r, resources);
      NameIsServed(r, resources);
      KeyIsOpen(resources, r);
      FieldIsOpen(resources, r, LabelField(r).value);
    }
  }

  lemma KeyIsOpen(resources: Resources, r: Resource)
    requires ValidResource(r, resources) && r in resources.Values
    ensures r.primaryKey in Opens(resources)(r.table)
    ensures r.table in Tables(resources)
  {
    hide ValidTable, ValidLabel, ValidDeclarations, ValidEditing, ValidAction, ValidRelationship, Open;
    FieldsIndexed(r.fields);
    FieldIsOpen(resources, r, IndexFields(r.fields)[r.primaryKey]);
  }

  // -------------------------------------------------------------- selections

  /** Fields the resource itself declares. */
  ghost predicate AreDeclared(r: Resource, fields: seq<Field>) {
    forall f :: f in fields ==> f in r.fields
  }

  lemma {:induction false} SelectionIsOpen(resources: Resources, r: Resource, fields: seq<Field>)
    requires NamesOpenly(resources) && r in resources.Values && AreDeclared(r, fields)
    requires Selected(fields, resources).Ok?
    ensures var s := Selected(fields, resources).value;
      && JoinsAreOpen(Opens(resources), Tables(resources), Open(resources, r.table), s.joins)
      && ItemsAreOpen(Opens(resources), Open(resources, r.table), s.joins, s.items)
  {
    hide NamesOpenly, Open, AddField, JoinsAreOpen, ItemsAreOpen, Tables;
    if fields == [] {
      EmptyIsOpen(resources, r);
    } else {
      var init, last := fields[..|fields| - 1], fields[|fields| - 1];
      assert AreDeclared(r, init);
      SelectionIsOpen(resources, r, init);
      var s := Selected(init, resources).value;
      if last.sensitive {
        SecretAddsNothing(s, last, resources);
      } else {
        FieldIsOpen(resources, r, last);
        OneMoreIsOpen(resources, r, s, last);
      }
    }
  }

  lemma SecretAddsNothing(s: Selection, f: Field, resources: Resources)
    requires f.sensitive
    ensures AddField(s, f, resources) == Ok(s)
  {
  }

  lemma EmptyIsOpen(resources: Resources, r: Resource)
    ensures JoinsAreOpen(Opens(resources), Tables(resources), Open(resources, r.table), [])
    ensures ItemsAreOpen(Opens(resources), Open(resources, r.table), [], [])
  {
  }

  lemma OneMoreIsOpen(resources: Resources, r: Resource, s: Selection, f: Field)
    requires NamesOpenly(resources) && f.key in Open(resources, r.table) && !f.sensitive
    requires AddField(s, f, resources).Ok?
    requires JoinsAreOpen(Opens(resources), Tables(resources), Open(resources, r.table), s.joins)
    requires ItemsAreOpen(Opens(resources), Open(resources, r.table), s.joins, s.items)
    ensures var t := AddField(s, f, resources).value;
      && JoinsAreOpen(Opens(resources), Tables(resources), Open(resources, r.table), t.joins)
      && ItemsAreOpen(Opens(resources), Open(resources, r.table), t.joins, t.items)
  {
    hide Open, LabelField, Tables;
    var from := Open(resources, r.table);
    var valued := WithValue(s, f, VALUE_SPACE);
    assert ItemsAreOpen(Opens(resources), from, s.joins, valued.items);
    if f.kind.Relation? {
      var target := resources[f.kind.target];
      var named := LabelField(target).value;
      var t := WithLabel(valued, f, target, named);
      assert t.joins[|s.joins|] == Join(target.table, target.primaryKey, f.key);
      forall i | 0 <= i < |t.items| ensures ItemIsOpen(Opens(resources), from, t.joins, t.items[i]) {
        if i < |valued.items| {
          assert ItemIsOpen(Opens(resources), from, s.joins, valued.items[i]);
        }
      }
    }
  }

  lemma {:induction false} ValuesAreOpen(resources: Resources, r: Resource, fields: seq<Field>, space: char)
    requires r in resources.Values && AreDeclared(r, fields)
    ensures ItemsAreOpen(Opens(resources), Open(resources, r.table), [], Values(fields, space).items)
  {
    if fields != [] {
      hide Open;
      var init, last := fields[..|fields| - 1], fields[|fields| - 1];
      assert AreDeclared(r, init);
      ValuesAreOpen(resources, r, init, space);
      assert last in fields;
      if !last.sensitive {
        FieldIsOpen(resources, r, last);
      }
    }
  }

  // -------------------------------------------------------------- conditions

  lemma OpenBoth(from: set<Key>, a: seq<Condition>, b: seq<Condition>)
    requires ConditionsAreOpen(from, a) && ConditionsAreOpen(from, b)
    ensures ConditionsAreOpen(from, a + b)
  {
    hide ConditionIsOpen;
  }

  lemma ListableIsOpen(resources: Resources, r: Resource, key: Key)
    requires r in resources.Values && Listable(IndexFields(r.fields), key)
    ensures key in Open(resources, r.table)
  {
    FieldsIndexed(r.fields);
    FieldIsOpen(resources, r, IndexFields(r.fields)[key]);
  }

  lemma SearchIsOpen(resources: Resources, r: Resource, term: string, bound: seq<Value>)
    requires r in resources.Values && ValidTable(r.view, IndexFields(r.fields))
    requires Searched(r, term, bound).Ok?
    ensures ConditionsAreOpen(Open(resources, r.table), Searched(r, term, bound).value.conditions)
  {
    hide Open, Listable, IndexFields;
    forall i | 0 <= i < |r.view.search| ensures r.view.search[i] in Open(resources, r.table) {
      assert Searchable(IndexFields(r.fields), r.view.search[i]);
      ListableIsOpen(resources, r, r.view.search[i]);
    }
  }

  lemma FilterIsOpen(
    resources: Resources, r: Resource, filter: Filter, field: Field, value: FilterValue, parses: string -> bool,
    bound: seq<Value>)
    requires field.key in Open(resources, r.table) && Filtered(filter, field, value, parses, bound).Ok?
    ensures ConditionsAreOpen(Open(resources, r.table), Filtered(filter, field, value, parses, bound).value.conditions)
  {
    hide Open;
  }

  lemma {:induction false} FiltersAreOpen(
    resources: Resources, r: Resource, requested: seq<(Key, FilterValue)>, parses: string -> bool, bound: seq<Value>)
    requires r in resources.Values && ValidTable(r.view, IndexFields(r.fields))
    requires AllFiltered(r, requested, parses, bound).Ok?
    ensures ConditionsAreOpen(Open(resources, r.table), AllFiltered(r, requested, parses, bound).value.conditions)
  {
    if requested != [] {
      hide Open, Filtered, ConditionsAreOpen, Listable;
      var n := |requested| - 1;
      FiltersAreOpen(resources, r, requested[..n], parses, bound);
      var before := AllFiltered(r, requested[..n], parses, bound).value;
      var (key, value) := requested[n];
      var declared, fields := Declared(r.view.filters), IndexFields(r.fields);
      DeclaredIsListed(r.view.filters);
      FieldsIndexed(r.fields);
      var at :| 0 <= at < |r.view.filters| && r.view.filters[at] == declared[key];
      assert Filterable(fields, r.view.filters[at]);
      ListableIsOpen(resources, r, key);
      FilterIsOpen(resources, r, declared[key], fields[key], value, parses, before.bound);
      OpenBoth(Open(resources, r.table), before.conditions,
        Filtered(declared[key], fields[key], value, parses, before.bound).value.conditions);
    }
  }

  lemma NarrowingIsOpen(
    resources: Resources, r: Resource, query: ListQuery, owner: Option<Ownership>, parses: string -> bool)
    requires r in resources.Values && ValidTable(r.view, IndexFields(r.fields))
    requires owner.Some? ==> owner.value.field.key in Open(resources, r.table)
    requires Narrowing(r, query, owner, parses).Ok?
    ensures ConditionsAreOpen(Open(resources, r.table), Narrowing(r, query, owner, parses).value.conditions)
  {
    var open, owned := Open(resources, r.table), OwnerNarrowed(owner);
    assert ConditionsAreOpen(open, owned.conditions);
    hide Open, Searched, AllFiltered, ConditionsAreOpen, ValidTable;
    var searched := if query.search.None? then Narrowed([], owned.bound)
                    else Searched(r, query.search.value, owned.bound).value;
    if query.search.Some? {
      SearchIsOpen(resources, r, query.search.value, owned.bound);
    } else {
    }
    FiltersAreOpen(resources, r, query.filter, parses, searched.bound);
    var filtered := AllFiltered(r, query.filter, parses, searched.bound).value;
    OpenBoth(open, owned.conditions, searched.conditions);
    OpenBoth(open, owned.conditions + searched.conditions, filtered.conditions);
  }

  lemma OrderIsOpenOf(resources: Resources, r: Resource, query: ListQuery)
    requires r in resources.Values && Ordered(r, query).Ok?
    requires r.primaryKey in Open(resources, r.table)
    ensures OrderIsOpen(Open(resources, r.table), Ordered(r, query).value)
  {
    hide Open;
    FieldsIndexed(r.fields);
    var term := SortTerm(r, query).value;
    if term.Some? {
      FieldIsOpen(resources, r, IndexFields(r.fields)[term.value.column]);
    }
  }

  // ------------------------------------------------------------------- reads

  lemma PageIsOpen(
    definition: Definition, r: Resource, query: ListQuery, owner: Option<Ownership>, parses: string -> bool)
    requires Valid(definition) && r in definition.resources
    requires var resources := IndexResources(definition.resources);
      && (owner.Some? ==> owner.value.field in r.fields)
      && CompiledRecords(resources, r, query, owner, parses).Ok?
    ensures var resources := IndexResources(definition.resources);
            var q := CompiledRecords(resources, r, query, owner, parses).value;
      && SelectIsOpen(Opens(resources), Tables(resources), q.rows.statement)
      && CountIsOpen(Opens(resources), Tables(resources), q.total.statement)
  {
    hide Valid, ValidResource, Open, Tables, Selected, ListFields, Narrowing, Ordered, JoinsAreOpen, ItemsAreOpen, ConditionsAreOpen, OrderIsOpen, NamesOpenly;
    var resources := IndexResources(definition.resources);
    ResourceIsIndexed(definition, r);
    ValidNamesOpenly(definition);
    TableIsValid(r, resources);
    ListIsServed(r, resources);
    KeyIsOpen(resources, r);
    SelectionIsOpen(resources, r, ListFields(r).value);
    if owner.Some? {
      FieldIsOpen(resources, r, owner.value.field);
    }
    NarrowingIsOpen(resources, r, query, owner, parses);
    OrderIsOpenOf(resources, r, query);
  }

  lemma RecordIsOpen(definition: Definition, r: Resource, id: Value)
    requires Valid(definition) && r in definition.resources
    ensures var resources := IndexResources(definition.resources);
      && CompiledRecord(resources, r, id).Ok?
      && SelectIsOpen(Opens(resources), Tables(resources), CompiledRecord(resources, r, id).value.statement)
  {
    hide Valid, ValidResource, Open, Tables, Selected, IdentityField, JoinsAreOpen, ItemsAreOpen, NamesOpenly;
    var resources := IndexResources(definition.resources);
    ResourceIsIndexed(definition, r);
    ValidNamesOpenly(definition);
    RecordIsServed(definition, r, id);
    KeyIsServed(r, resources);
    KeyIsOpen(resources, r);
    SelectionIsOpen(resources, r, r.fields);
  }

  lemma LookupIsOpen(definition: Definition, r: Resource, id: Value, field: Field)
    requires Valid(definition) && r in definition.resources && field in r.fields
    requires CompiledLookup(r, id, field).Ok?
    ensures var resources := IndexResources(definition.resources);
            SelectIsOpen(Opens(resources), Tables(resources), CompiledLookup(r, id, field).value.statement)
  {
    hide Valid, ValidResource, Open, Tables, IdentityField;
    var resources := IndexResources(definition.resources);
    ResourceIsIndexed(definition, r);
    KeyIsServed(r, resources);
    KeyIsOpen(resources, r);
    FieldIsOpen(resources, r, field);
  }

  lemma OptionsAreOpen(definition: Definition, r: Resource, term: Option<string>)
    requires Valid(definition) && r in definition.resources
    ensures var resources := IndexResources(definition.resources);
      && CompiledOptions(r, term).Ok?
      && SelectIsOpen(Opens(resources), Tables(resources), CompiledOptions(r, term).value.statement)
  {
    hide Valid, ValidResource, Open, Tables, IdentityField, LabelField;
    var resources := IndexResources(definition.resources);
    ResourceIsIndexed(definition, r);
    KeyIsServed(r, resources);
    KeyIsOpen(resources, r);
    NameIsServed(r, resources);
    FieldIsOpen(resources, r, LabelField(r).value);
  }

  // ------------------------------------------------------------------ writes

  /** The value entries of a selection are public columns of its own row. */
  lemma {:induction false} EntriesAreOpen(resources: Resources, r: Resource, fields: seq<Field>)
    requires r in resources.Values && AreDeclared(r, fields) && Selected(fields, resources).Ok?
    ensures AllIn(ReturningList(Selected(fields, resources).value.entries), Open(resources, r.table))
  {
    if fields != [] {
      hide Open, LabelField, ReturningList, AllIn;
      var init, last := fields[..|fields| - 1], fields[|fields| - 1];
      assert AreDeclared(r, init);
      EntriesAreOpen(resources, r, init);
      assert last in fields;
      var s, t := Selected(init, resources).value, Selected(fields, resources).value;
      if !last.sensitive {
        FieldIsOpen(resources, r, last);
        if last.kind.Relation? {
          var target := resources[last.kind.target];
        }
      }
    }
  }

  ghost predicate Assigns(r: Resource, assignments: seq<Assignment>) {
    forall a :: a in assignments ==> a.field in r.fields
  }

  lemma AssignedAreOpen(resources: Resources, r: Resource, mode: Mode, assignments: seq<Assignment>)
    requires r in resources.Values && Assigns(r, assignments)
    requires RefuseUnwritable(r, assignments, mode).Ok?
    ensures AllIn(KeysOf(assignments), Open(resources, r.table))
  {
    hide Open;
    RefusesExactlyTheUnwritable(r, assignments, mode);
    forall i | 0 <= i < |assignments| ensures KeysOf(assignments)[i] in Open(resources, r.table) {
      assert assignments[i] in assignments;
      assert Writable(r, assignments[i].field, mode);
      FieldIsOpen(resources, r, assignments[i].field);
    }
  }

  lemma InsertIsOpen(definition: Definition, r: Resource, assignments: seq<Assignment>)
    requires Valid(definition) && r in definition.resources && Assigns(r, assignments)
    requires CompiledInsert(IndexResources(definition.resources), r, assignments).Ok?
    ensures var resources := IndexResources(definition.resources);
            WriteIsOpen(Opens(resources), Tables(resources), CompiledInsert(resources, r, assignments).value.statement)
  {
    hide Valid, ValidResource, Open, Tables, Selected, IdentityField, JoinsAreOpen, ItemsAreOpen, NamesOpenly, ReturningList, RefuseUnwritable, AllIn;
    var resources := IndexResources(definition.resources);
    ResourceIsIndexed(definition, r);
    ValidNamesOpenly(definition);
    KeyIsOpen(resources, r);
    SelectionIsOpen(resources, r, r.fields);
    EntriesAreOpen(resources, r, r.fields);
    AssignedAreOpen(resources, r, Creating, assignments);
  }

  lemma UpdateIsOpen(definition: Definition, r: Resource, assignments: seq<Assignment>, id: Value)
    requires Valid(definition) && r in definition.resources && Assigns(r, assignments)
    requires CompiledUpdate(IndexResources(definition.resources), r, assignments, id).Ok?
    ensures var resources := IndexResources(definition.resources);
            WriteIsOpen(Opens(resources), Tables(resources), CompiledUpdate(resources, r, assignments, id).value.statement)
  {
    hide Valid, ValidResource, Open, Tables, Selected, IdentityField, JoinsAreOpen, ItemsAreOpen, NamesOpenly, ReturningList, RefuseUnwritable, AllIn, Values;
    var resources := IndexResources(definition.resources);
    ResourceIsIndexed(definition, r);
    ValidNamesOpenly(definition);
    KeyIsServed(r, resources);
    KeyIsOpen(resources, r);
    SelectionIsOpen(resources, r, r.fields);
    EntriesAreOpen(resources, r, r.fields);
    AssignedAreOpen(resources, r, Updating, assignments);
    forall f | f in FieldsOf(assignments) ensures f in r.fields {
      var i :| 0 <= i < |assignments| && FieldsOf(assignments)[i] == f;
      assert assignments[i] in assignments;
    }
    ValuesAreOpen(resources, r, FieldsOf(assignments), BEFORE_SPACE);
  }

  lemma SetFieldIsOpen(definition: Definition, r: Resource, field: Field, value: Value, id: Value)
    requires Valid(definition) && r in definition.resources && field in r.fields
    requires CompiledSetField(r, field, value, id).Ok?
    ensures var resources := IndexResources(definition.resources);
            WriteIsOpen(Opens(resources), Tables(resources), CompiledSetField(r, field, value, id).value.statement)
  {
    hide Valid, ValidResource, Open, Tables, IdentityField;
    var resources := IndexResources(definition.resources);
    ResourceIsIndexed(definition, r);
    KeyIsServed(r, resources);
    KeyIsOpen(resources, r);
    FieldIsOpen(resources, r, field);
  }
}
