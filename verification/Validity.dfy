/** What a definition may be relied on for, said without a checker: every key
    it uses names something, and nothing it uses is a secret. */
module Validity {
  import opened Outcomes
  import opened Definitions
  import opened ActionUrls

  type Fields = map<Key, Field>

  /** May be shown in a list, ranked by, searched and filtered. */
  predicate Listable(fields: Fields, key: Key) {
    key in fields && !fields[key].sensitive && !fields[key].hidden
  }

  /** The filter a field type takes (table-view-checks.ts:8-14). */
  function FilterFor(kind: FieldType): Option<FilterKind> {
    match kind
    case Enum(_, _) => Some(EnumFilter)
    case Boolean => Some(BooleanFilter)
    case Date => Some(DateRangeFilter)
    case DateTime => Some(DateRangeFilter)
    case Relation(_) => Some(RelationFilter)
    case _ => None
  }

  predicate Searchable(fields: Fields, key: Key) {
    Listable(fields, key) && fields[key].kind.IsText()
  }

  predicate Filterable(fields: Fields, filter: Filter) {
    Listable(fields, filter.field) && FilterFor(fields[filter.field].kind) == Some(filter.kind)
  }

  ghost predicate ValidTable(view: TableView, fields: Fields) {
    && (forall i :: 0 <= i < |view.columns| ==> Listable(fields, view.columns[i]))
    && Listable(fields, view.sortField)
    && (forall i :: 0 <= i < |view.search| ==> Searchable(fields, view.search[i]))
    && (forall i :: 0 <= i < |view.filters| ==> Filterable(fields, view.filters[i]))
  }

  predicate ValidLabel(resource: Resource, fields: Fields) {
    resource.labelField.None? ||
    (Listable(fields, resource.labelField.value) && fields[resource.labelField.value].kind.IsLabellable())
  }

  predicate ValidKey(resource: Resource, fields: Fields) {
    resource.primaryKey in fields && !fields[resource.primaryKey].sensitive
  }

  /** An editable field is one some write could really carry. */
  predicate ValidEditing(resource: Resource, field: Field) {
    && (field.required ==> field.editable)
    && (field.editable ==>
         && resource.OffersWrites()
         && !field.sensitive
         && !(field.key == resource.primaryKey && resource.KeysFrom() == Database)
         && field.kind.IsWritable())
  }

  predicate ValidDeclarations(resource: Resource) {
    && resource.readOnly != Some(false)
    && !(resource.readOnly == Some(true) && resource.OffersWrites())
    && (resource.generation.Some? ==> resource.creates)
    && (resource.OffersWrites() ==> exists i :: 0 <= i < |resource.fields| && resource.fields[i].editable)
  }

  predicate PointsSomewhere(field: Field, resources: map<Key, Resource>) {
    field.kind.Relation? ==> field.kind.target in resources
  }

  /** The field a relationship is travelled by, wherever it lives. */
  predicate ValidRelationship(relationship: Relationship, resource: Resource, resources: map<Key, Resource>) {
    relationship.target in resources &&
    var owner := if relationship.kind == BelongsTo then resource else resources[relationship.target];
    var found := FieldNamed(owner.fields, relationship.foreignKey);
    found.Some? && !found.value.sensitive
  }

  /** The literals a condition may compare with (visibility-checks.ts:21-30). */
  datatype Literal = StringLiteral | NumberLiteral | BooleanLiteral

  function LiteralFor(kind: FieldType): Option<Literal> {
    match kind
    case PlainText => Some(StringLiteral)
    case Enum(_, _) => Some(StringLiteral)
    case Boolean => Some(BooleanLiteral)
    case Number => Some(NumberLiteral)
    case Email => Some(StringLiteral)
    case Url => Some(StringLiteral)
    case _ => None
  }

  predicate IsLiteral(literal: Literal, value: Value) {
    match literal
    case StringLiteral => value.Text?
    case NumberLiteral => value.Int? || value.Fraction?
    case BooleanLiteral => value.Bool?
  }

  /** One thing is asked of a field, which is no secret, and that field could
      answer it. */
  predicate ValidCondition(when: VisibleWhen, fields: Fields) {
    && when.field in fields && !fields[when.field].sensitive
    && (when.isSet <==> when.equals.None?)
    && (when.equals.Some? ==>
         var kind := fields[when.field].kind;
         && LiteralFor(kind).Some? && IsLiteral(LiteralFor(kind).value, when.equals.value)
         && (kind.Enum? ==> when.equals.value.text in kind.values))
  }

  predicate ValidTones(field: Field) {
    field.kind.Enum? ==> forall i :: 0 <= i < |field.kind.tones| ==> field.kind.tones[i] in field.kind.values
  }

  predicate ValidSection(section: seq<Key>, fields: Fields) {
    forall i :: 0 <= i < |section| ==> section[i] in fields
  }

  ghost predicate ValidDetail(view: DetailView, fields: Fields, relationships: seq<Key>) {
    && (forall i :: 0 <= i < |view.sections| ==> ValidSection(view.sections[i], fields))
    && (view.tabs ==> view.relatedLists != [])
    && (forall i :: 0 <= i < |view.relatedLists| ==> view.relatedLists[i] in relationships)
  }

  predicate ValidAction(action: Action, fields: Fields) {
    (action.visibleWhen.Some? ==> ValidCondition(action.visibleWhen.value, fields)) && ValidWork(action, fields)
  }

  predicate ValidWork(action: Action, fields: Fields) {
    match action
    case DbUpdate(_, key, value, _) =>
      key in fields && !fields[key].sensitive &&
      (match fields[key].kind
       case Enum(values, _) => value.Text? && value.text in values
       case Boolean => value.Bool?
       case _ => false)
    case HttpCall(_, url, _) =>
      var holes := Holes(Pieces(url));
      forall i :: 0 <= i < |holes| ==> holes[i] in fields && !fields[holes[i]].sensitive
  }

  predicate DistinctKeys(keys: seq<Key>) {
    forall i, j :: 0 <= i < j < |keys| ==> keys[i] != keys[j]
  }

  function RelationshipKeys(relationships: seq<Relationship>): (keys: seq<Key>)
    ensures |keys| == |relationships|
    ensures forall i :: 0 <= i < |keys| ==> keys[i] == relationships[i].key
  {
    seq(|relationships|, i requires 0 <= i < |relationships| => relationships[i].key)
  }

  function ActionKeys(actions: seq<Action>): (keys: seq<Key>)
    ensures |keys| == |actions|
    ensures forall i :: 0 <= i < |keys| ==> keys[i] == actions[i].key
  {
    seq(|actions|, i requires 0 <= i < |actions| => actions[i].key)
  }

  ghost predicate ValidResource(r: Resource, resources: map<Key, Resource>) {
    && DistinctFields(r.fields)
    && DistinctKeys(RelationshipKeys(r.relationships))
    && DistinctKeys(ActionKeys(r.actions))
    && var fields := IndexFields(r.fields);
    && ValidKey(r, fields)
    && ValidLabel(r, fields)
    && ValidDeclarations(r)
    && (forall i :: 0 <= i < |r.fields| ==> ValidEditing(r, r.fields[i]))
    && (forall i :: 0 <= i < |r.fields| ==> PointsSomewhere(r.fields[i], resources))
    && (forall i :: 0 <= i < |r.relationships| ==> ValidRelationship(r.relationships[i], r, resources))
    && (forall i :: 0 <= i < |r.fields| ==> ValidTones(r.fields[i]))
    && ValidTable(r.view, fields)
    && ValidDetail(r.detail, fields, RelationshipKeys(r.relationships))
    && (forall i :: 0 <= i < |r.actions| ==> ValidAction(r.actions[i], fields))
  }

  /** Every entry of the navigation, group after group. */
  function Listed(navigation: seq<seq<Key>>): seq<Key> {
    if navigation == [] then []
    else Listed(navigation[..|navigation| - 1]) + navigation[|navigation| - 1]
  }

  /** The groups list each resource, and each exactly once. */
  ghost predicate NavigationMatches(definition: Definition) {
    var listed, resources := Listed(definition.navigation), IndexResources(definition.resources);
    && DistinctKeys(listed)
    && (forall k :: k in listed <==> k in resources)
  }

  ghost predicate Valid(definition: Definition) {
    && DistinctResources(definition.resources)
    && NavigationMatches(definition)
    && (forall i :: 0 <= i < |definition.resources| ==>
         ValidResource(definition.resources[i], IndexResources(definition.resources)))
  }
}
