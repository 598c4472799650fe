/** The shape of a definition once it is structurally valid
    (packages/contracts/src/definition/schema.ts, fields.ts, views.ts, actions.ts). */
module Definitions {
  import opened Outcomes

  type Key = string

  /** A database value, a JSON value, or a bound parameter. `Opaque` stands for
      everything with no reading of its own here: days, moments, blobs. */
  datatype Value =
    | Null
    | Bool(b: bool)
    | Int(n: int)
    | Fraction(r: real)
    | Text(text: string)
    | Opaque(tag: nat)

  datatype FieldType =
    | PlainText
    | LongText
    | Number
    | Boolean
    | Date
    | DateTime
    | Email
    | Url
    | Json
    | Enum(values: seq<string>, tones: seq<string>)
    | Relation(target: Key)
  {
    predicate IsText() {
      PlainText? || LongText? || Email? || Url?
    }

    predicate IsWritable() {
      !Json?
    }

    predicate IsLabellable() {
      !Json? && !Relation?
    }
  }

  datatype Field = Field(
    key: Key,
    kind: FieldType,
    sensitive: bool,
    hidden: bool,
    editable: bool,
    required: bool)

  datatype RelationshipKind = BelongsTo | HasMany

  datatype Relationship = Relationship(key: Key, kind: RelationshipKind, target: Key, foreignKey: Key)

  datatype FilterKind = EnumFilter | BooleanFilter | DateRangeFilter | RelationFilter

  datatype Filter = Filter(field: Key, kind: FilterKind)

  datatype TableView = TableView(
    columns: seq<Key>,
    sortField: Key,
    sortDescending: bool,
    search: seq<Key>,
    filters: seq<Filter>)

  /** `relatedLists` are relationships; `tabs` gives each a tab of its own. */
  datatype DetailView = DetailView(sections: seq<seq<Key>>, tabs: bool, relatedLists: seq<Key>)

  /** Structure lets either condition be stated, or both, or neither. */
  datatype VisibleWhen = VisibleWhen(field: Key, equals: Option<Value>, isSet: bool)

  datatype Action =
    | DbUpdate(key: Key, field: Key, value: Value, visibleWhen: Option<VisibleWhen>)
    | HttpCall(key: Key, url: string, visibleWhen: Option<VisibleWhen>)

  datatype Generation = Database | Client

  datatype Resource = Resource(
    key: Key,
    table: Key,
    primaryKey: Key,
    generation: Option<Generation>,
    labelField: Option<Key>,
    readOnly: Option<bool>,
    fields: seq<Field>,
    creates: bool,
    updates: bool,
    relationships: seq<Relationship>,
    view: TableView,
    detail: DetailView,
    actions: seq<Action>)
  {
    function LabelKey(): Key {
      if labelField.Some? then labelField.value else primaryKey
    }

    function KeysFrom(): Generation {
      if generation.Some? then generation.value else Database
    }

    predicate OffersWrites() {
      creates || updates
    }
  }

  datatype Definition = Definition(navigation: seq<seq<Key>>, resources: seq<Resource>)

  /** `new Map(fields.map(...))`: of two fields claiming one key, the later one. */
  function IndexFields(fields: seq<Field>): map<Key, Field> {
    if fields == [] then map[]
    else
      var last := fields[|fields| - 1];
      IndexFields(fields[..|fields| - 1])[last.key := last]
  }

  /** The same, of resources (packages/engine/src/resources.ts:6-8). */
  function IndexResources(resources: seq<Resource>): map<Key, Resource> {
    if resources == [] then map[]
    else
      var last := resources[|resources| - 1];
      IndexResources(resources[..|resources| - 1])[last.key := last]
  }

  lemma {:induction false} FieldsIndexed(fields: seq<Field>)
    ensures var index := IndexFields(fields);
      && (forall k :: k in index ==> index[k] in fields && index[k].key == k)
      && (forall f :: f in fields ==> f.key in index)
  {
    if fields != [] {
      var init := fields[..|fields| - 1];
      FieldsIndexed(init);
      assert fields == init + [fields[|fields| - 1]];
    }
  }

  lemma {:induction false} ResourcesIndexed(resources: seq<Resource>)
    ensures var index := IndexResources(resources);
      && (forall k :: k in index ==> index[k] in resources && index[k].key == k)
      && (forall r :: r in resources ==> r.key in index)
  {
    if resources != [] {
      var init := resources[..|resources| - 1];
      ResourcesIndexed(init);
      assert resources == init + [resources[|resources| - 1]];
    }
  }

  predicate DistinctFields(fields: seq<Field>) {
    forall i, j :: 0 <= i < j < |fields| ==> fields[i].key != fields[j].key
  }

  predicate DistinctResources(resources: seq<Resource>) {
    forall i, j :: 0 <= i < j < |resources| ==> resources[i].key != resources[j].key
  }

  lemma FieldByKey(fields: seq<Field>, f: Field)
    requires DistinctFields(fields) && f in fields
    ensures f.key in IndexFields(fields) && IndexFields(fields)[f.key] == f
  {
    FieldsIndexed(fields);
    var i :| 0 <= i < |fields| && fields[i] == f;
    var g := IndexFields(fields)[f.key];
    var j :| 0 <= j < |fields| && fields[j] == g;
  }

  lemma ResourceByKey(resources: seq<Resource>, r: Resource)
    requires DistinctResources(resources) && r in resources
    ensures r.key in IndexResources(resources) && IndexResources(resources)[r.key] == r
  {
    ResourcesIndexed(resources);
    var i :| 0 <= i < |resources| && resources[i] == r;
    var g := IndexResources(resources)[r.key];
    var j :| 0 <= j < |resources| && resources[j] == g;
  }
}
