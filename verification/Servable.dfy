/** What a silent checker is worth: for a valid definition, what refusals remain are
    the caller's own, each met exactly when it is deserved. */
module Servable {
  import opened Outcomes
  import opened Definitions
  import opened Columns
  import opened Conditions
  import opened QueryBuilder
  import opened RecordValues
  import opened WriteStatements
  import opened RecordsMapper
  import opened ActionUrls
  import opened Validity
  import Reader
  import References

  // ------------------------------------------------------ one resource's own

  lemma Indexed(definition: Definition, key: Key)
    requires Valid(definition) && key in IndexResources(definition.resources)
    ensures var resources := IndexResources(definition.resources);
            resources[key] in definition.resources && ValidResource(resources[key], resources)
  {
    hide ValidResource, NavigationMatches;
    ResourcesIndexed(definition.resources);
  }

  lemma ResourceIsIndexed(definition: Definition, r: Resource)
    requires Valid(definition) && r in definition.resources
    ensures var resources := IndexResources(definition.resources);
            r.key in resources && resources[r.key] == r && ValidResource(r, resources)
  {
    hide ValidResource, NavigationMatches;
    ResourceByKey(definition.resources, r);
    Indexed(definition, r.key);
  }

  lemma KeyIsServed(r: Resource, resources: Resources)
    requires ValidResource(r, resources)
    ensures IdentityField(r) == Ok(IndexFields(r.fields)[r.primaryKey])
    ensures IdentityField(r).value.key == r.primaryKey && IdentityField(r).value in r.fields
  {
    FieldsIndexed(r.fields);
  }

  lemma NameIsServed(r: Resource, resources: Resources)
    requires ValidResource(r, resources)
    ensures LabelField(r).Ok?
    ensures LabelField(r).value in r.fields && !LabelField(r).value.sensitive
  {
    FieldsIndexed(r.fields);
  }

  lemma {:induction false} FieldsAreServed(r: Resource, keys: seq<Key>)
    requires forall i :: 0 <= i < |keys| ==> keys[i] in IndexFields(r.fields)
    ensures RequireFields(r, keys).Ok?
  {
    if keys != [] {
      FieldsAreServed(r, keys[..|keys| - 1]);
    }
  }

  lemma ListIsServed(r: Resource, resources: Resources)
    requires ValidResource(r, resources)
    ensures ListFields(r).Ok?
    ensures forall f :: f in ListFields(r).value ==> f in r.fields
    ensures IdentityField(r).Ok? && exists f :: f in ListFields(r).value && f.key == r.primaryKey
  {
    hide ValidLabel, ValidDeclarations, ValidEditing, ValidAction, ValidRelationship;
    KeyIsServed(r, resources);
    var keys := r.view.columns;
    FieldsAreServed(r, keys);
    RequiredFields(r, keys);
    FieldsIndexed(r.fields);
    var columns, listed := RequireFields(r, keys).value, ListFields(r).value;
    forall f | f in columns ensures f in r.fields {
      var i :| 0 <= i < |columns| && columns[i] == f;
      assert RequireField(r, keys[i]) == Ok(f);
    }
    var identity := IdentityField(r).value;
    if listed == columns + [identity] {
      assert identity in listed;
    }
  }

  /** A list shows the columns its view names, in that order, and then the key it
      is addressed by, unless it is among them; a hidden key as any other. */
  lemma AListShowsItsColumns(r: Resource)
    requires ListFields(r).Ok?
    ensures var listed, keys := ListFields(r).value, r.view.columns;
      && |keys| <= |listed| <= |keys| + 1
      && (forall i :: 0 <= i < |keys| ==> listed[i].key == keys[i] && listed[i] in r.fields)
      && (|listed| == |keys| <==> r.primaryKey in keys)
      && (|listed| > |keys| ==> listed[|keys|].key == r.primaryKey && listed[|keys|] in r.fields)
  {
    var keys := r.view.columns;
    RequiredFields(r, keys);
    FieldsIndexed(r.fields);
    var columns, listed := RequireFields(r, keys).value, ListFields(r).value;
    forall i | 0 <= i < |keys| ensures columns[i].key == keys[i] && columns[i] in r.fields {
      assert RequireField(r, keys[i]) == Ok(columns[i]);
    }
    var identity := IdentityField(r).value;
    assert identity.key == r.primaryKey && identity in r.fields;
    if r.primaryKey in keys {
      var i :| 0 <= i < |keys| && keys[i] == r.primaryKey;
      assert columns[i].key == identity.key;
      assert listed == columns;
    } else {
      assert forall i :: 0 <= i < |columns| ==> columns[i].key != identity.key;
      assert listed == columns + [identity];
    }
  }

  // ------------------------------------------------------- naming its targets

  /** Every relation of the list points at a resource that can be named. */
  ghost predicate NamesItsTargets(fields: seq<Field>, resources: Resources) {
    forall f :: f in fields && f.kind.Relation? ==>
      f.kind.target in resources && LabelField(resources[f.kind.target]).Ok?
  }

  lemma TargetsAreNamed(definition: Definition, r: Resource)
    requires Valid(definition) && r in definition.resources
    ensures NamesItsTargets(r.fields, IndexResources(definition.resources))
  {
    var resources := IndexResources(definition.resources);
    ResourceIsIndexed(definition, r);
    forall f | f in r.fields && f.kind.Relation?
      ensures f.kind.target in resources && LabelField(resources[f.kind.target]).Ok?
    {
      hide ValidTable, ValidLabel, ValidDeclarations, ValidEditing, ValidAction, ValidRelationship, LabelField, DistinctKeys, DistinctFields;
      var i :| 0 <= i < |r.fields| && r.fields[i] == f;
      assert PointsSomewhere(r.fields[i], resources);
      Indexed(definition, f.kind.target);
      NameIsServed(resources[f.kind.target], resources);
    }
  }

  lemma {:induction false} SelectionIsServed(fields: seq<Field>, resources: Resources)
    requires NamesItsTargets(fields, resources)
    ensures Selected(fields, resources).Ok?
  {
    if fields != [] {
      var init, last := fields[..|fields| - 1], fields[|fields| - 1];
      assert forall f :: f in init ==> f in fields;
      SelectionIsServed(init, resources);
      assert last in fields;
    }
  }

  // ------------------------------------------------------------ what is asked

  /** A filter's value is one its kind can be asked for. */
  ghost predicate Answerable(filter: Filter, field: Field, value: FilterValue, parses: string -> bool) {
    match filter.kind
    case DateRangeFilter =>
      && value.Range? && (value.from.Some? || value.to.Some?)
      && (value.from.Some? ==> parses(value.from.value))
      && (value.to.Some? ==> parses(value.to.value))
    case EnumFilter => value.Single? && field.kind.Enum? && value.value in field.kind.values
    case BooleanFilter => value.Single? && (value.value == "true" || value.value == "false")
    case RelationFilter => value.Single?
  }

  ghost predicate FilterAskable(r: Resource, asked: (Key, FilterValue), parses: string -> bool) {
    var declared, fields := Declared(r.view.filters), IndexFields(r.fields);
    && asked.0 in declared && asked.0 in fields
    && Answerable(declared[asked.0], fields[asked.0], asked.1, parses)
  }

  /** A request this resource's table view can be asked: a sort on something
      shown, a search where there is something to search, and declared filters
      with values they take. */
  ghost predicate Askable(r: Resource, query: ListQuery, parses: string -> bool) {
    && (query.sort.Some? ==> Listable(IndexFields(r.fields), query.sort.value))
    && (query.search.Some? ==> r.view.search != [])
    && (forall i :: 0 <= i < |query.filter| ==> FilterAskable(r, query.filter[i], parses))
  }

  lemma {:induction false} DeclaredIsListed(filters: seq<Filter>)
    ensures forall k :: k in Declared(filters) ==> Declared(filters)[k] in filters && Declared(filters)[k].field == k
  {
    if filters != [] {
      var init := filters[..|filters| - 1];
      DeclaredIsListed(init);
      assert filters == init + [filters[|filters| - 1]];
    }
  }

  /** Met with the field it was declared for, a filter is answered or its value
      refused: the mismatch the compiler guards against cannot arise. */
  lemma FilterIsServed(filter: Filter, field: Field, value: FilterValue, parses: string -> bool, bound: seq<Value>)
    requires FilterFor(field.kind) == Some(filter.kind)
    ensures var o := Filtered(filter, field, value, parses, bound);
            if Answerable(filter, field, value, parses) then o.Ok? else o == Err(InvalidQuery)
  {
  }

  lemma {:induction false} FiltersAreServed(
    r: Resource, requested: seq<(Key, FilterValue)>, parses: string -> bool, bound: seq<Value>)
    requires ValidTable(r.view, IndexFields(r.fields))
    ensures var o := AllFiltered(r, requested, parses, bound);
            if forall i :: 0 <= i < |requested| ==> FilterAskable(r, requested[i], parses) then o.Ok?
            else o == Err(InvalidQuery)
  {
    hide Answerable, Filtered;
    if requested != [] {
      var n := |requested| - 1;
      var init := requested[..n];
      FiltersAreServed(r, init, parses, bound);
      assert forall i :: 0 <= i < n ==> requested[i] == init[i];
      if AllFiltered(r, init, parses, bound).Ok? {
        var declared, fields := Declared(r.view.filters), IndexFields(r.fields);
        var (key, value) := requested[n];
        DeclaredIsListed(r.view.filters);
        if key in declared {
          var at :| 0 <= at < |r.view.filters| && r.view.filters[at] == declared[key];
          assert Filterable(fields, r.view.filters[at]);
          FilterIsServed(declared[key], fields[key], value, parses, AllFiltered(r, init, parses, bound).value.bound);
        }
      }
    }
  }

  lemma SearchIsServed(r: Resource, term: string, bound: seq<Value>)
    requires ValidTable(r.view, IndexFields(r.fields))
    ensures var o := Searched(r, term, bound);
            if r.view.search != [] then o.Ok? else o == Err(InvalidQuery)
  {
    if r.view.search != [] {
      forall i | 0 <= i < |r.view.search| ensures r.view.search[i] in IndexFields(r.fields) {
        assert Searchable(IndexFields(r.fields), r.view.search[i]);
      }
      FieldsAreServed(r, r.view.search);
    }
  }

  lemma NarrowingIsServed(r: Resource, query: ListQuery, owner: Option<Ownership>, parses: string -> bool)
    requires ValidTable(r.view, IndexFields(r.fields))
    ensures var o := Narrowing(r, query, owner, parses);
            if (query.search.Some? ==> r.view.search != [])
               && (forall i :: 0 <= i < |query.filter| ==> FilterAskable(r, query.filter[i], parses))
            then o.Ok? else o == Err(InvalidQuery)
  {
    hide FilterAskable, Searched, AllFiltered, ValidTable;
    var owned := OwnerNarrowed(owner);
    var bound := owned.bound;
    if query.search.Some? {
      SearchIsServed(r, query.search.value, owned.bound);
      if r.view.search != [] {
        bound := Searched(r, query.search.value, owned.bound).value.bound;
      }
    }
    FiltersAreServed(r, query.filter, parses, bound);
  }

  lemma OrderIsServed(r: Resource, query: ListQuery, resources: Resources)
    requires ValidResource(r, resources)
    ensures var o := Ordered(r, query);
            if query.sort.Some? ==> Listable(IndexFields(r.fields), query.sort.value) then o.Ok?
            else o == Err(InvalidQuery)
  {
    hide ValidLabel, ValidDeclarations, ValidEditing, ValidAction, ValidRelationship, DistinctKeys;
    KeyIsServed(r, resources);
  }

  // ------------------------------------------------------------------- reads

  lemma PageIsServed(
    definition: Definition, r: Resource, query: ListQuery, owner: Option<Ownership>, parses: string -> bool)
    requires Valid(definition) && r in definition.resources
    requires owner.Some? ==> !owner.value.field.sensitive
    ensures var o := CompiledRecords(IndexResources(definition.resources), r, query, owner, parses);
            if Askable(r, query, parses) then o.Ok? else o == Err(InvalidQuery)
  {
    hide Selected, Narrowing, Ordered, ListFields, FilterAskable, ValidResource, Valid, NamesItsTargets, Listable;
    var resources := IndexResources(definition.resources);
    ResourceIsIndexed(definition, r);
    assert ValidTable(r.view, IndexFields(r.fields)) by { TableIsValid(r, resources); }
    ListIsServed(r, resources);
    var listed := ListFields(r).value;
    TargetsAreNamed(definition, r);
    TargetsOfSome(r.fields, listed, resources);
    SelectionIsServed(listed, resources);
    NarrowingIsServed(r, query, owner, parses);
    OrderIsServed(r, query, resources);
  }

  lemma TableIsValid(r: Resource, resources: Resources)
    requires ValidResource(r, resources)
    ensures ValidTable(r.view, IndexFields(r.fields))
  {
  }

  lemma TargetsOfSome(fields: seq<Field>, some: seq<Field>, resources: Resources)
    requires NamesItsTargets(fields, resources)
    requires forall f :: f in some ==> f in fields
    ensures NamesItsTargets(some, resources)
  {
  }

  lemma RecordIsServed(definition: Definition, r: Resource, id: Value)
    requires Valid(definition) && r in definition.resources
    ensures CompiledRecord(IndexResources(definition.resources), r, id).Ok?
  {
    hide Selected, ValidResource, Valid, IdentityField, NamesItsTargets;
    var resources := IndexResources(definition.resources);
    ResourceIsIndexed(definition, r);
    KeyIsServed(r, resources);
    TargetsAreNamed(definition, r);
    SelectionIsServed(r.fields, resources);
  }

  lemma OptionsAreServed(definition: Definition, r: Resource, term: Option<string>)
    requires Valid(definition) && r in definition.resources
    ensures CompiledOptions(r, term).Ok?
  {
    hide ValidResource, Valid, IdentityField, LabelField;
    var resources := IndexResources(definition.resources);
    ResourceIsIndexed(definition, r);
    KeyIsServed(r, resources);
    NameIsServed(r, resources);
  }

  // ----------------------------------------------------------- related lists

  /** With one field to a key, the first and the last to claim it are the same. */
  lemma {:induction false} FirstNamedIsIndexed(fields: seq<Field>, key: Key)
    requires DistinctFields(fields) && FieldNamed(fields, key).Some?
    ensures key in IndexFields(fields) && IndexFields(fields)[key] == FieldNamed(fields, key).value
    ensures FieldNamed(fields, key).value in fields
  {
    NamedIsThere(fields, key);
    FieldByKey(fields, FieldNamed(fields, key).value);
  }

  lemma {:induction false} NamedIsThere(fields: seq<Field>, key: Key)
    ensures match FieldNamed(fields, key)
            case Some(f) => f in fields && f.key == key
            case None => forall f :: f in fields ==> f.key != key
  {
    if fields != [] {
      NamedIsThere(fields[1..], key);
      assert fields == [fields[0]] + fields[1..];
    }
  }

  /** A relationship can be travelled: the column asked of the record in the URL
      and the column that narrows the target's page are there, and no secret. */
  lemma RelationshipIsServed(definition: Definition, r: Resource, x: Relationship, id: Value)
    requires Valid(definition) && r in definition.resources && x in r.relationships
    ensures var resources := IndexResources(definition.resources);
      && x.target in resources
      && Reader.TravelField(r, x).Ok?
      && Reader.Asked(r, x, id).Ok?
      && Reader.OwnerField(resources[x.target], x).Ok?
      && !Reader.OwnerField(resources[x.target], x).value.sensitive
  {
    hide ValidTable, ValidLabel, ValidDeclarations, ValidEditing, ValidAction, DistinctFields, DistinctKeys, FieldNamed, IndexFields;
    var resources := IndexResources(definition.resources);
    ResourceIsIndexed(definition, r);
    KeyIsServed(r, resources);
    var i :| 0 <= i < |r.relationships| && r.relationships[i] == x;
    assert ValidRelationship(r.relationships[i], r, resources);
    Indexed(definition, x.target);
    var target := resources[x.target];
    KeyIsServed(target, resources);
    FirstNamedIsIndexed(if x.kind == BelongsTo then r.fields else target.fields, x.foreignKey);
  }

  lemma RelatedPageIsServed(
    definition: Definition, r: Resource, x: Relationship, id: Value, query: ListQuery, parses: string -> bool)
    requires Valid(definition) && r in definition.resources && x in r.relationships
    ensures var resources := IndexResources(definition.resources);
      && x.target in resources
      && var target := resources[x.target];
      && Reader.OwnerField(target, x).Ok?
      && var o := CompiledRecords(
           resources, target, query, Some(Ownership(Reader.OwnerField(target, x).value, id)), parses);
         if Askable(target, query, parses) then o.Ok? else o == Err(InvalidQuery)
  {
    hide ValidResource, Valid, CompiledRecords, Askable, Reader.OwnerField;
    RelationshipIsServed(definition, r, x, id);
    Indexed(definition, x.target);
    var target := IndexResources(definition.resources)[x.target];
    PageIsServed(definition, target, query, Some(Ownership(Reader.OwnerField(target, x).value, id)), parses);
  }

  // ------------------------------------------------------------------ writes

  /** What the first wall accepts, the compiler writes. */
  lemma WritesAreServed(
    definition: Definition, r: Resource, mode: Mode, s: Submission, fits: (Field, Value) -> bool, id: Value)
    requires Valid(definition) && r in definition.resources
    requires s.WellFormed() && Problems(r, mode, s, fits) == []
    ensures var resources, assignments := IndexResources(definition.resources), AssignmentsFor(r.fields, s.values);
            match mode
            case Creating => CompiledInsert(resources, r, assignments).Ok?
            case Updating => CompiledUpdate(resources, r, assignments, id).Ok?
  {
    hide Selected, ValidResource, Valid, IdentityField, NamesItsTargets, Problems, RefuseUnwritable, AssignmentsFor;
    var resources := IndexResources(definition.resources);
    ResourceIsIndexed(definition, r);
    FieldsDiffer(r, resources);
    var _ := TheTwoWallsAgree(r, mode, s, fits);
    KeyIsServed(r, resources);
    TargetsAreNamed(definition, r);
    SelectionIsServed(r.fields, resources);
  }

  lemma FieldsDiffer(r: Resource, resources: Resources)
    requires ValidResource(r, resources)
    ensures DistinctFields(r.fields)
  {
  }

  // ----------------------------------------------------------------- actions

  lemma UpdateActionIsServed(definition: Definition, r: Resource, action: Action, id: Value)
    requires Valid(definition) && r in definition.resources
    requires action in r.actions && action.DbUpdate?
    ensures RequireField(r, action.field).Ok?
    ensures CompiledSetField(r, RequireField(r, action.field).value, action.value, id).Ok?
  {
    hide ValidTable, ValidLabel, ValidDeclarations, ValidEditing, ValidRelationship, DistinctFields, DistinctKeys;
    var resources := IndexResources(definition.resources);
    ResourceIsIndexed(definition, r);
    KeyIsServed(r, resources);
    var i :| 0 <= i < |r.actions| && r.actions[i] == action;
    assert ValidAction(r.actions[i], IndexFields(r.fields));
  }

  /** Every placeholder the record can fill, it fills. */
  ghost predicate Filled(pieces: seq<Piece>, values: map<Key, RecordValue>) {
    forall i :: 0 <= i < |pieces| && pieces[i].Hole? ==> Readable(values, pieces[i].key) != Null
  }

  lemma {:induction false} AddressIsServed(
    r: Resource, pieces: seq<Piece>, values: map<Key, RecordValue>, write: Value -> string)
    requires DistinctFields(r.fields)
    requires forall h :: h in Holes(pieces) ==> h in IndexFields(r.fields) && !IndexFields(r.fields)[h].sensitive
    ensures var o := Resolve(r, pieces, values, write);
            if Filled(pieces, values) then o.Ok? else o == Err(InvalidQuery)
  {
    if pieces != [] {
      var rest := pieces[1..];
      assert forall h :: h in Holes(rest) ==> h in Holes(pieces);
      AddressIsServed(r, rest, values, write);
      assert Filled(pieces, values) <==>
             (pieces[0].Hole? ==> Readable(values, pieces[0].key) != Null) && Filled(rest, values) by {
        assert forall i :: 0 <= i < |rest| ==> rest[i] == pieces[i + 1];
        if (pieces[0].Hole? ==> Readable(values, pieces[0].key) != Null) && Filled(rest, values) {
          forall i | 0 <= i < |pieces| && pieces[i].Hole? ensures Readable(values, pieces[i].key) != Null {
            if i > 0 { assert pieces[i] == rest[i - 1]; }
          }
        }
      }
      if pieces[0].Hole? {
        var key := pieces[0].key;
        assert key in Holes(pieces);
        FieldsIndexed(r.fields);
        NamedIsThere(r.fields, key);
        FirstNamedIsIndexed(r.fields, key);
      }
    }
  }

  lemma CallActionIsServed(
    definition: Definition, r: Resource, action: Action, values: map<Key, RecordValue>, write: Value -> string)
    requires Valid(definition) && r in definition.resources
    requires action in r.actions && action.HttpCall?
    ensures var o := ActionUrl(r, action.url, values, write);
            if Filled(Pieces(action.url), values) then o.Ok? else o == Err(InvalidQuery)
  {
    hide ValidTable, ValidLabel, ValidDeclarations, ValidEditing, ValidRelationship, DistinctFields, DistinctKeys, Pieces, Holes, Resolve, Filled;
    var resources := IndexResources(definition.resources);
    ResourceIsIndexed(definition, r);
    var i :| 0 <= i < |r.actions| && r.actions[i] == action;
    assert ValidAction(r.actions[i], IndexFields(r.fields));
    var holes := Holes(Pieces(action.url));
    forall h | h in holes ensures h in IndexFields(r.fields) && !IndexFields(r.fields)[h].sensitive {
      var k :| 0 <= k < |holes| && holes[k] == h;
    }
    AddressIsServed(r, Pieces(action.url), values, write);
  }

  // ------------------------------------------------------------ all together

  ghost predicate ServesReads(resources: Resources, r: Resource) {
    && (forall query, parses :: CompiledRecords(resources, r, query, None, parses).Served())
    && (forall id :: CompiledRecord(resources, r, id).Served())
    && (forall term :: CompiledOptions(r, term).Served())
  }

  ghost predicate ServesRelationships(resources: Resources, r: Resource) {
    forall x, id :: x in r.relationships ==>
      && Reader.Asked(r, x, id).Served()
      && x.target in resources
      && Reader.OwnerField(resources[x.target], x).Ok?
      && forall query, parses :: CompiledRecords(
           resources, resources[x.target], query, Some(Ownership(Reader.OwnerField(resources[x.target], x).value, id)),
           parses).Served()
  }

  ghost predicate ServesWrites(resources: Resources, r: Resource) {
    forall s: Submission, mode, fits :: s.WellFormed() && Problems(r, mode, s, fits) == [] ==>
      && (mode == Creating ==> CompiledInsert(resources, r, AssignmentsFor(r.fields, s.values)).Served())
      && (mode == Updating ==>
           forall id :: CompiledUpdate(resources, r, AssignmentsFor(r.fields, s.values), id).Served())
  }

  ghost predicate ServesActions(r: Resource) {
    forall action :: action in r.actions ==>
      match action
      case DbUpdate(_, key, value, _) =>
        RequireField(r, key).Ok? && forall id :: CompiledSetField(r, RequireField(r, key).value, value, id).Served()
      case HttpCall(_, url, _) =>
        forall values, write :: ActionUrl(r, url, values, write).Served()
  }

  /** If the referential pass reports nothing, nothing asked of the compiler can
      come to a bare failure or to an unservable resource. */
  lemma SilenceServesEverything(definition: Definition, r: Resource)
    requires References.ReferenceErrors(definition) == [] && r in definition.resources
    ensures var resources := IndexResources(definition.resources);
            ServesReads(resources, r) && ServesRelationships(resources, r) && ServesWrites(resources, r) && ServesActions(r)
  {
    hide Valid, References.ReferenceErrors, Askable, Problems, Filled;
    hide CompiledRecords, CompiledRecord, CompiledOptions, CompiledInsert, CompiledUpdate, CompiledSetField, ActionUrl;
    hide Reader.Asked, Reader.OwnerField, RequireField;
    References.SilentExactlyWhenValid(definition);
    var resources := IndexResources(definition.resources);
    forall query, parses ensures CompiledRecords(resources, r, query, None, parses).Served() {
      PageIsServed(definition, r, query, None, parses);
    }
    forall id ensures CompiledRecord(resources, r, id).Served() { RecordIsServed(definition, r, id); }
    forall term ensures CompiledOptions(r, term).Served() { OptionsAreServed(definition, r, term); }
    TravelIsServed(definition, r);
    SubmissionsAreServed(definition, r);
    ActionsAreServed(definition, r);
  }

  lemma TravelIsServed(definition: Definition, r: Resource)
    requires Valid(definition) && r in definition.resources
    ensures ServesRelationships(IndexResources(definition.resources), r)
  {
    hide Valid, Askable, CompiledRecords, Reader.Asked, Reader.OwnerField;
    var resources := IndexResources(definition.resources);
    forall x, id | x in r.relationships
      ensures Reader.Asked(r, x, id).Served() && x.target in resources && Reader.OwnerField(resources[x.target], x).Ok?
      ensures forall query, parses :: CompiledRecords(
           resources, resources[x.target], query, Some(Ownership(Reader.OwnerField(resources[x.target], x).value, id)),
           parses).Served()
    {
      RelationshipIsServed(definition, r, x, id);
      forall query, parses
        ensures CompiledRecords(
           resources, resources[x.target], query, Some(Ownership(Reader.OwnerField(resources[x.target], x).value, id)),
           parses).Served()
      {
        RelatedPageIsServed(definition, r, x, id, query, parses);
      }
    }
  }

  lemma SubmissionsAreServed(definition: Definition, r: Resource)
    requires Valid(definition) && r in definition.resources
    ensures ServesWrites(IndexResources(definition.resources), r)
  {
    hide Valid, Problems, CompiledInsert, CompiledUpdate;
    var resources := IndexResources(definition.resources);
    forall s: Submission, mode, fits | s.WellFormed() && Problems(r, mode, s, fits) == []
      ensures mode == Creating ==> CompiledInsert(resources, r, AssignmentsFor(r.fields, s.values)).Served()
      ensures mode == Updating ==>
        forall id :: CompiledUpdate(resources, r, AssignmentsFor(r.fields, s.values), id).Served()
    {
      forall id
        ensures mode == Creating ==> CompiledInsert(resources, r, AssignmentsFor(r.fields, s.values)).Served()
        ensures mode == Updating ==> CompiledUpdate(resources, r, AssignmentsFor(r.fields, s.values), id).Served()
      {
        WritesAreServed(definition, r, mode, s, fits, id);
      }
      WritesAreServed(definition, r, mode, s, fits, Null);
    }
  }

  lemma ActionsAreServed(definition: Definition, r: Resource)
    requires Valid(definition) && r in definition.resources
    ensures ServesActions(r)
  {
    hide Valid, Filled, CompiledSetField, ActionUrl, RequireField;
    forall action | action in r.actions && action.DbUpdate?
      ensures RequireField(r, action.field).Ok?
      ensures forall id :: CompiledSetField(r, RequireField(r, action.field).value, action.value, id).Served()
    {
      forall id
        ensures RequireField(r, action.field).Ok?
        ensures CompiledSetField(r, RequireField(r, action.field).value, action.value, id).Served()
      {
        UpdateActionIsServed(definition, r, action, id);
      }
      UpdateActionIsServed(definition, r, action, Null);
    }
    forall action | action in r.actions && action.HttpCall?
      ensures forall values, write :: ActionUrl(r, action.url, values, write).Served()
    {
      forall values, write ensures ActionUrl(r, action.url, values, write).Served() {
        CallActionIsServed(definition, r, action, values, write);
      }
    }
  }
}
