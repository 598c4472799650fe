/** A definition and a request, turned into a statement
    (packages/engine/src/query/query-builder.ts, options.ts). */
module QueryBuilder {
  import opened Outcomes
  import opened Definitions
  import opened Statements
  import opened Columns
  import opened Conditions
  import Search

  /** packages/contracts/src/runtime/requests.ts:30-43 */
  datatype ListQuery = ListQuery(
    page: nat,
    pageSize: nat,
    search: Option<string>,
    sort: Option<Key>,
    descending: Option<bool>,
    filter: seq<(Key, FilterValue)>)

  /** A page keeps only the rows whose `field` holds `id`. */
  datatype Ownership = Ownership(field: Field, id: Value)

  datatype RecordsQuery = RecordsQuery(rows: Query<Select>, total: Query<Count>)

  /** packages/contracts/src/runtime/requests.ts:54 */
  const OPTIONS_LIMIT := 20

  // ------------------------------------------------------------------ pages

  /** The column a page is sorted by, and which way; nothing when the
      definition's own choice cannot be followed. */
  function SortTerm(resource: Resource, query: ListQuery): Outcome<Option<Term>> {
    var fields := IndexFields(resource.fields);
    if query.sort.Some? then
      var key := query.sort.value;
      if key !in fields || fields[key].sensitive || fields[key].hidden then Err(InvalidQuery)
      else Ok(Some(Term(key, if query.descending.Some? then query.descending.value else false)))
    else
      var key := resource.view.sortField;
      if key !in fields || fields[key].sensitive then Ok(None)
      else Ok(Some(Term(key,
        if query.descending.Some? then query.descending.value else resource.view.sortDescending)))
  }

  method OrderBy(resource: Resource, query: ListQuery) returns (r: Outcome<seq<Term>>)
    ensures r == Ordered(resource, query)
  {
    var identity := IdentityField(resource);
    if identity.Err? {
      return Err(identity.failure);
    }
    var sorted := SortTerm(resource, query);
    if sorted.Err? {
      return Err(sorted.failure);
    }
    var terms: seq<Term> := [];
    if sorted.value.Some? {
      terms := terms + [sorted.value.value];
    }
    if sorted.value.None? || sorted.value.value.column != identity.value.key {
      terms := terms + [Term(identity.value.key, false)];
    }
    assert terms == Ordered(resource, query).value;
    return Ok(terms);
  }

  /** Ties on the sort column are broken by the key, unless it is the key. */
  function Ordered(resource: Resource, query: ListQuery): Outcome<seq<Term>> {
    var identity :- IdentityField(resource);
    var sorted :- SortTerm(resource, query);
    match sorted
    case None => Ok([Term(identity.key, false)])
    case Some(term) =>
      if term.column == identity.key then Ok([term]) else Ok([term, Term(identity.key, false)])
  }

  function OwnerNarrowed(owner: Option<Ownership>): Narrowed {
    if owner.None? then Narrowed([], [])
    else Narrowed([Equal(owner.value.field.key, 1)], [owner.value.id])
  }

  /** Everything that narrows a page, in the order it is bound. */
  function Narrowing(
    resource: Resource, query: ListQuery, owner: Option<Ownership>, parses: string -> bool): Outcome<Narrowed>
  {
    var owned := OwnerNarrowed(owner);
    var searched :- if query.search.None? then Ok(Narrowed([], owned.bound))
                    else Searched(resource, query.search.value, owned.bound);
    var filtered :- AllFiltered(resource, query.filter, parses, searched.bound);
    Ok(Narrowed(owned.conditions + searched.conditions + filtered.conditions, filtered.bound))
  }

  function PageValues(bound: seq<Value>, query: ListQuery): seq<Value> {
    bound + [Int(query.pageSize), Int((query.page - 1) * query.pageSize)]
  }

  /** The page, and the count that asks the same question of the same rows. */
  function PageQueries(
    table: Key, selection: Selection, narrowed: Narrowed, order: seq<Term>, query: ListQuery): RecordsQuery
  {
    var n := |narrowed.bound|;
    var rows := Select(selection.items, table, selection.joins, narrowed.conditions, order, Page(n + 1, n + 2));
    RecordsQuery(
      Query(rows, PageValues(narrowed.bound, query), selection.entries, []),
      Query(Count(table, narrowed.conditions), narrowed.bound, [], []))
  }

  function CompiledRecords(
    resources: Resources, resource: Resource, query: ListQuery, owner: Option<Ownership>, parses: string -> bool)
    : Outcome<RecordsQuery>
  {
    if owner.Some? && owner.value.field.sensitive then Err(Unservable)
    else
      var fields :- ListFields(resource);
      var selection :- Selected(fields, resources);
      var narrowed :- Narrowing(resource, query, owner, parses);
      var order :- Ordered(resource, query);
      Ok(PageQueries(resource.table, selection, narrowed, order, query))
  }

  /** Binds everything that narrows a page, before anything that cuts it. */
  method Narrow(
    resource: Resource, query: ListQuery, owner: Option<Ownership>, parses: string -> bool, parameters: Parameters)
    returns (r: Outcome<seq<Condition>>)
    requires parameters.bound == []
    modifies parameters
    ensures match Narrowing(resource, query, owner, parses)
            case Ok(narrowed) => r == Ok(narrowed.conditions) && parameters.bound == narrowed.bound
            case Err(failure) => r == Err(failure)
  {
    var conditions: seq<Condition> := [];
    if owner.Some? {
      var slot := parameters.Bind(owner.value.id);
      conditions := conditions + [Equal(owner.value.field.key, slot)];
    }
    ghost var owned := OwnerNarrowed(owner);
    assert Narrowed(conditions, parameters.bound) == owned;
    ghost var searched := Narrowed([], owned.bound);
    if query.search.Some? {
      var condition := SearchCondition(resource, query.search.value, parameters);
      if condition.Err? {
        return Err(condition.failure);
      }
      conditions := conditions + [condition.value];
      searched := Searched(resource, query.search.value, owned.bound).value;
    }
    assert conditions == owned.conditions + searched.conditions;
    var filtered := FilterConditions(resource, query.filter, parses, parameters);
    if filtered.Err? {
      return Err(filtered.failure);
    }
    return Ok(conditions + filtered.value);
  }

  method Records(
    resources: Resources, resource: Resource, query: ListQuery, owner: Option<Ownership>, parses: string -> bool)
    returns (r: Outcome<RecordsQuery>)
    ensures r == CompiledRecords(resources, resource, query, owner, parses)
  {
    hide ListFields, Selected, Narrowing, Ordered;
    if owner.Some? && owner.value.field.sensitive {
      return Err(Unservable);
    }

    var listed := ListFields(resource);
    if listed.Err? {
      return Err(listed.failure);
    }
    var selection := SelectFields(listed.value, resources);
    if selection.Err? {
      return Err(selection.failure);
    }
    var parameters := new Parameters();
    var conditions := Narrow(resource, query, owner, parses, parameters);
    if conditions.Err? {
      return Err(conditions.failure);
    }

    var countValues := parameters.bound;
    var limit := parameters.Bind(Int(query.pageSize));
    var offset := parameters.Bind(Int((query.page - 1) * query.pageSize));
    assert parameters.bound == PageValues(countValues, query);
    var order := OrderBy(resource, query);
    if order.Err? {
      return Err(order.failure);
    }

    var rows := Select(
      selection.value.items, resource.table, selection.value.joins, conditions.value, order.value,
      Page(limit, offset));
    var queries := RecordsQuery(
      Query(rows, parameters.bound, selection.value.entries, []),
      Query(Count(resource.table, conditions.value), countValues, [], []));
    assert queries ==
           PageQueries(resource.table, selection.value, Narrowed(conditions.value, countValues), order.value, query);
    return Ok(queries);
  }

  // ------------------------------------------------- one record, one column

  function CompiledRecord(resources: Resources, resource: Resource, id: Value): Outcome<Query<Select>> {
    var selection :- Selected(resource.fields, resources);
    var identity :- IdentityField(resource);
    var s := Select(
      selection.items, resource.table, selection.joins, [Equal(identity.key, 1)], [], First(1));
    Ok(Query(s, [id], selection.entries, []))
  }

  method Record(resources: Resources, resource: Resource, id: Value) returns (r: Outcome<Query<Select>>)
    ensures r == CompiledRecord(resources, resource, id)
  {
    var selection := SelectFields(resource.fields, resources);
    if selection.Err? {
      return Err(selection.failure);
    }
    var parameters := new Parameters();
    var identity := IdentityField(resource);
    if identity.Err? {
      return Err(identity.failure);
    }
    var slot := parameters.Bind(id);
    assert parameters.bound == [id];
    var s := Select(
      selection.value.items, resource.table, selection.value.joins, [Equal(identity.value.key, slot)], [], First(1));
    return Ok(Query(s, parameters.bound, selection.value.entries, []));
  }

  /** The output name of a single looked-up column. */
  const LOOKUP := Alias(VALUE_SPACE, 0)

  /** One column of one record; a secret one is refused. */
  function CompiledLookup(resource: Resource, id: Value, field: Field): Outcome<Query<Select>> {
    if field.sensitive then Err(Unservable)
    else
      var identity :- IdentityField(resource);
      var s := Select(
        [Item(Reference(Base, field.key), LOOKUP)], resource.table, [], [Equal(identity.key, 1)], [], First(1));
      Ok(Query(s, [id], [], []))
  }

  /** The label first, then the key, unless they are one column. */
  function OptionOrder(named: Key, identity: Key): seq<Term> {
    if named == identity then [Term(named, false)] else [Term(named, false), Term(identity, false)]
  }

  function OptionTerm(named: Field, term: Option<string>): Narrowed {
    if term.None? then Narrowed([], [])
    else Narrowed([AnyILike([named.key], !named.kind.IsText(), 1)], [Text(Search.SearchPattern(term.value))])
  }

  function OptionItems(identity: Key, named: Key): seq<Item> {
    [Item(Reference(Base, identity), Alias(VALUE_SPACE, 0)), Item(Reference(Base, named), Alias(VALUE_SPACE, 1))]
  }

  /** What a picker offers: each record's key, and the name it is chosen by. */
  function CompiledOptions(resource: Resource, term: Option<string>): Outcome<Query<Select>> {
    var identity :- IdentityField(resource);
    var named :- LabelField(resource);
    var narrowed := OptionTerm(named, term);
    var s := Select(
      OptionItems(identity.key, named.key), resource.table, [], narrowed.conditions,
      OptionOrder(named.key, identity.key), AtMostSlot(|narrowed.bound| + 1));
    Ok(Query(s, narrowed.bound + [Int(OPTIONS_LIMIT)], [], []))
  }

  method Options(resource: Resource, term: Option<string>) returns (r: Outcome<Query<Select>>)
    ensures r == CompiledOptions(resource, term)
  {
    var identity := IdentityField(resource);
    if identity.Err? {
      return Err(identity.failure);
    }
    var named := LabelField(resource);
    if named.Err? {
      return Err(named.failure);
    }
    var parameters := new Parameters();
    var at := named.value.key;
    var conditions: seq<Condition> := [];
    if term.Some? {
      var slot := parameters.Bind(Text(Search.SearchPattern(term.value)));
      conditions := [AnyILike([at], !named.value.kind.IsText(), slot)];
    }
    assert Narrowed(conditions, parameters.bound) == OptionTerm(named.value, term);
    var order := OptionOrder(at, identity.value.key);
    var limit := parameters.Bind(Int(OPTIONS_LIMIT));
    var s := Select(
      OptionItems(identity.value.key, at), resource.table, [], conditions, order, AtMostSlot(limit));
    return Ok(Query(s, parameters.bound, [], []));
  }

  /** A `dbUpdate`: it sets a single column where the key matches, and reads it
      before and after. */
  function CompiledSetField(resource: Resource, field: Field, value: Value, id: Value): Outcome<Query<Write>> {
    if field.sensitive then Err(Unservable)
    else
      var identity :- IdentityField(resource);
      var after, before := Alias(VALUE_SPACE, 0), Alias(BEFORE_SPACE, 0);
      var w := Update(
        resource.table, [field.key], [1], identity.key, 2,
        [Item(Reference(Base, field.key), before)],
        [field.key],
        [Item(Reference(Base, field.key), after)], []);
      Ok(Query(w, [value, id], [Entry(after, field.key, false, field)], [Entry(before, field.key, false, field)]))
  }

  /** A secret column is neither looked up nor set, whatever the definition; all
      else either is asked for needs is a key to find the row by. */
  lemma ASecretIsNeitherReadNorSet(resource: Resource, field: Field, value: Value, id: Value)
    ensures CompiledLookup(resource, id, field).Ok? <==> !field.sensitive && IdentityField(resource).Ok?
    ensures CompiledSetField(resource, field, value, id).Ok? <==> !field.sensitive && IdentityField(resource).Ok?
    ensures field.sensitive ==>
              && CompiledLookup(resource, id, field) == Err(Unservable)
              && CompiledSetField(resource, field, value, id) == Err(Unservable)
  {
    hide IdentityField;
  }

  /** Whatever the definition, a page is not ranked by a secret: asked for, it is
      refused, as is what is hidden or not declared; stated by the view, it is passed
      over. */
  lemma ASecretIsNotRankedBy(resource: Resource, query: ListQuery)
    ensures var fields, sorted := IndexFields(resource.fields), SortTerm(resource, query);
      && (sorted.Ok? && sorted.value.Some? ==>
           sorted.value.value.column in fields && !fields[sorted.value.value.column].sensitive)
      && (query.sort.None? ==> sorted.Ok?)
      && (query.sort.Some? ==>
           var key := query.sort.value;
           if key in fields && !fields[key].sensitive && !fields[key].hidden then sorted.Ok? && sorted.value.Some?
           else sorted == Err(InvalidQuery))
  {
    hide IndexFields;
  }
}
