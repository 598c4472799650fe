/** What a reported problem means: the value written at its path is what its flaw
    says of it (packages/contracts/src/definition/references.ts). */
module Deserving {
  import opened Outcomes
  import opened Definitions
  import opened Paths
  import opened ActionUrls
  import opened Validity
  import opened Checks
  import opened References

  // ----------------------------------------------------------- where it is said

  datatype OwnSite = Itself | ItsKey | PrimaryKey | LabelField | ReadOnly | Generation | Writes

  datatype FieldSite = FieldKey | FieldRequired | FieldEditable | FieldTarget | FieldTone(tone: string)

  datatype RelationshipSite = RelationshipKey | RelationshipTarget | ForeignKey

  datatype TableSite =
    | Column(column: nat)
    | SortField
    | Searched(searched: nat)
    | ItsFilter(filter: nat)
    | FilterField(filter: nat)
    | FilterKind(filter: nat)

  datatype DetailSite = SectionField(section: nat, field: nat) | RelatedLayout | RelatedList(list: nat)

  datatype ActionSite = ActionKey | ActionField | ActionValue | ActionUrl | OfferedWhen | WhenField | WhenEquals

  /** The places of a resource that can be written wrongly. */
  datatype Site =
    | Own(own: OwnSite)
    | OfField(field: nat, ofField: FieldSite)
    | OfRelationship(relationship: nat, ofRelationship: RelationshipSite)
    | OfTable(ofTable: TableSite)
    | OfDetail(ofDetail: DetailSite)
    | OfAction(action: nat, ofAction: ActionSite)

  function OwnPath(site: OwnSite): Path {
    match site
    case Itself => []
    case ItsKey => [Name("key")]
    case PrimaryKey => [Name("primaryKey")]
    case LabelField => [Name("labelField")]
    case ReadOnly => [Name("readOnly")]
    case Generation => [Name("primaryKeyGeneration")]
    case Writes => [Name("writes")]
  }

  function FieldPath(site: FieldSite): Path {
    match site
    case FieldKey => [Name("key")]
    case FieldRequired => [Name("required")]
    case FieldEditable => [Name("editable")]
    case FieldTarget => [Name("target")]
    case FieldTone(tone) => [Name("tones"), Name(tone)]
  }

  function RelationshipPath(site: RelationshipSite): Path {
    match site
    case RelationshipKey => [Name("key")]
    case RelationshipTarget => [Name("target")]
    case ForeignKey => [Name("foreignKey")]
  }

  function TableSitePath(site: TableSite): Path {
    match site
    case Column(j) => [Name("columns"), Index(j)]
    case SortField => [Name("defaultSort"), Name("field")]
    case Searched(j) => [Name("search"), Index(j)]
    case ItsFilter(j) => [Name("filters"), Index(j)]
    case FilterField(j) => [Name("filters"), Index(j), Name("field")]
    case FilterKind(j) => [Name("filters"), Index(j), Name("kind")]
  }

  function DetailSitePath(site: DetailSite): Path {
    match site
    case SectionField(s, j) => [Name("sections"), Index(s), Name("fields"), Index(j)]
    case RelatedLayout => [Name("relatedLayout")]
    case RelatedList(j) => [Name("relatedLists"), Index(j)]
  }

  function ActionPath(site: ActionSite): Path {
    match site
    case ActionKey => [Name("key")]
    case ActionField => [Name("field")]
    case ActionValue => [Name("value")]
    case ActionUrl => [Name("url")]
    case OfferedWhen => [Name("visibleWhen")]
    case WhenField => [Name("visibleWhen"), Name("field")]
    case WhenEquals => [Name("visibleWhen"), Name("equals")]
  }

  /** The path of each, from its resource. */
  function PathOf(site: Site): Path {
    match site
    case Own(own) => OwnPath(own)
    case OfField(j, field) => [Name("fields"), Index(j)] + FieldPath(field)
    case OfRelationship(j, relationship) => [Name("relationships"), Index(j)] + RelationshipPath(relationship)
    case OfTable(table) => [Name("views"), Name("table")] + TableSitePath(table)
    case OfDetail(detail) => [Name("views"), Name("detail")] + DetailSitePath(detail)
    case OfAction(j, action) => [Name("actions"), Index(j)] + ActionPath(action)
  }

  // --------------------------------------------------------- what is said there

  /** The resource a key names: of two that claim it, the first. */
  function ResourceNamed(resources: seq<Resource>, key: Key): Option<Resource> {
    if resources == [] then None
    else if resources[0].key == key then Some(resources[0])
    else ResourceNamed(resources[1..], key)
  }

  /** Some entry before the j-th claims its key. */
  predicate ClaimedBefore(keys: seq<Key>, j: nat) {
    j < |keys| && exists k :: 0 <= k < j && keys[k] == keys[j]
  }

  /** The flaw of a key that should name a field. */
  predicate NamesBadly(named: Option<Field>, flaw: Flaw) {
    match flaw
    case UnknownField => named.None?
    case SecretField => named.Some? && named.value.sensitive
    case _ => false
  }

  /** The flaw of one that should name a field a list may show. */
  predicate ListsBadly(named: Option<Field>, flaw: Flaw) {
    || NamesBadly(named, flaw)
    || (flaw == HiddenField && named.Some? && !named.value.sensitive && named.value.hidden)
  }

  predicate MayList(named: Option<Field>) {
    named.Some? && !named.value.sensitive && !named.value.hidden
  }

  predicate LabelsBadly(r: Resource, flaw: Flaw) {
    r.labelField.Some? &&
    var named := FieldNamed(r.fields, r.labelField.value);
    ListsBadly(named, flaw) ||
    (flaw == NotALabel && MayList(named) && (named.value.kind.Json? || named.value.kind.Relation?))
  }

  predicate ReadsOnlyBadly(r: Resource, flaw: Flaw) {
    || (flaw == ReadOnlyIsFalse && r.readOnly == Some(false))
    || (flaw == ReadOnlyWithWrites && r.readOnly == Some(true) && (r.creates || r.updates))
  }

  /** An editable field is no secret, some write may carry it, and some input fits
      it; the key is nobody's to set where the database issues it. */
  predicate EditsBadly(r: Resource, f: Field, flaw: Flaw) {
    f.editable &&
    var issued := f.key == r.primaryKey && r.generation != Some(Client);
    match flaw
    case EditableWithoutWrites => !r.creates && !r.updates
    case SecretField => f.sensitive
    case KeyIssuedByDatabase => !f.sensitive && issued
    case NotWritable => !f.sensitive && !issued && f.kind == Json
    case _ => false
  }

  /** The field a relationship is travelled by: of this resource, or of the other. */
  function TravelledBy(definition: Definition, r: Resource, x: Relationship): Option<Field> {
    var target := ResourceNamed(definition.resources, x.target);
    if x.kind == BelongsTo then FieldNamed(r.fields, x.foreignKey)
    else if target.Some? then FieldNamed(target.value.fields, x.foreignKey)
    else None
  }

  predicate TravelsBadly(definition: Definition, r: Resource, x: Relationship, flaw: Flaw) {
    ResourceNamed(definition.resources, x.target).Some? && NamesBadly(TravelledBy(definition, r, x), flaw)
  }

  predicate SearchesBadly(named: Option<Field>, flaw: Flaw) {
    ListsBadly(named, flaw) ||
    (flaw == NotText && MayList(named) &&
     var kind := named.value.kind; !kind.PlainText? && !kind.LongText? && !kind.Email? && !kind.Url?)
  }

  /** A field that no filter takes, and one that another kind of filter takes. */
  predicate Unfilterable(kind: FieldType) {
    !kind.Enum? && !kind.Boolean? && !kind.Date? && !kind.DateTime? && !kind.Relation?
  }

  predicate TakenBy(kind: FieldType, filter: FilterKind) {
    match filter
    case EnumFilter => kind.Enum?
    case BooleanFilter => kind.Boolean?
    case DateRangeFilter => kind.Date? || kind.DateTime?
    case RelationFilter => kind.Relation?
  }

  predicate FiltersBadly(named: Option<Field>, flaw: Flaw) {
    flaw == NotFilterable && MayList(named) && Unfilterable(named.value.kind)
  }

  predicate FiltersAmiss(named: Option<Field>, filter: FilterKind, flaw: Flaw) {
    flaw == WrongFilterKind && MayList(named) && !Unfilterable(named.value.kind) && !TakenBy(named.value.kind, filter)
  }

  /** The literal a `dbUpdate` may write: one of an enum's own, or a boolean. */
  predicate MayWrite(kind: FieldType, value: Value) {
    || (kind.Enum? && value.Text? && value.text in kind.values)
    || (kind.Boolean? && value.Bool?)
  }

  predicate UpdatesBadly(named: Option<Field>, flaw: Flaw) {
    || NamesBadly(named, flaw)
    || (flaw == NotUpdatable && named.Some? && !named.value.sensitive &&
        !named.value.kind.Enum? && !named.value.kind.Boolean?)
  }

  predicate WritesBadly(named: Option<Field>, value: Value, flaw: Flaw) {
    && flaw == NotAValueOfField && named.Some? && !named.value.sensitive
    && (named.value.kind.Enum? || named.value.kind.Boolean?)
    && !MayWrite(named.value.kind, value)
  }

  /** A condition that compares, stated once, of a field that is no secret. */
  predicate Compares(r: Resource, when: VisibleWhen) {
    var named := FieldNamed(r.fields, when.field);
    named.Some? && !named.value.sensitive && when.equals.Some? && !when.isSet
  }

  predicate Comparable(kind: FieldType) {
    kind.PlainText? || kind.Enum? || kind.Boolean? || kind.Number? || kind.Email? || kind.Url?
  }

  predicate AsksBadly(r: Resource, when: VisibleWhen, flaw: Flaw) {
    var named := FieldNamed(r.fields, when.field);
    || NamesBadly(named, flaw)
    || (flaw == NotComparable && Compares(r, when) && !Comparable(named.value.kind))
  }

  /** The kind of literal a field's type is written with. */
  predicate Alike(kind: FieldType, value: Value) {
    match kind
    case Boolean => value.Bool?
    case Number => value.Int? || value.Fraction?
    case _ => value.Text?
  }

  predicate EqualsBadly(r: Resource, when: VisibleWhen, flaw: Flaw) {
    Compares(r, when) &&
    var kind, value := FieldNamed(r.fields, when.field).value.kind, when.equals.value;
    && Comparable(kind)
    && if kind.Enum? then flaw == NotAValueOfField && !(value.Text? && value.text in kind.values)
       else flaw == WrongLiteral && !Alike(kind, value)
  }

  /** A condition of neither sort, or of both. */
  predicate StatesBadly(r: Resource, when: VisibleWhen, flaw: Flaw) {
    var named := FieldNamed(r.fields, when.field);
    && flaw == NotOneCondition && named.Some? && !named.value.sensitive
    && ((when.equals.Some? && when.isSet) || (when.equals.None? && !when.isSet))
  }

  ghost predicate OwnHolds(definition: Definition, i: nat, site: OwnSite, flaw: Flaw)
    requires i < |definition.resources|
  {
    var r := definition.resources[i];
    match site
    case Itself =>
      && flaw == Unlisted && !ClaimedBefore(ResourceKeys(definition.resources), i)
      && forall g :: 0 <= g < |definition.navigation| ==> r.key !in definition.navigation[g]
    case ItsKey => flaw == DuplicateKey && ClaimedBefore(ResourceKeys(definition.resources), i)
    case PrimaryKey => NamesBadly(FieldNamed(r.fields, r.primaryKey), flaw)
    case LabelField => LabelsBadly(r, flaw)
    case ReadOnly => ReadsOnlyBadly(r, flaw)
    case Generation => flaw == GenerationWithoutCreate && r.generation.Some? && !r.creates
    case Writes => flaw == NoEditableField && (r.creates || r.updates) && forall f :: f in r.fields ==> !f.editable
  }

  predicate FieldHolds(definition: Definition, r: Resource, j: nat, site: FieldSite, flaw: Flaw)
    requires j < |r.fields|
  {
    var f, first := r.fields[j], !ClaimedBefore(FieldKeys(r.fields), j);
    match site
    case FieldKey => flaw == DuplicateKey && !first
    case FieldRequired => first && flaw == RequiredNotEditable && f.required && !f.editable
    case FieldEditable => first && EditsBadly(r, f, flaw)
    case FieldTarget =>
      flaw == UnknownResource && f.kind.Relation? && ResourceNamed(definition.resources, f.kind.target).None?
    case FieldTone(tone) =>
      flaw == NotAValueToTone && f.kind.Enum? && tone in f.kind.tones && tone !in f.kind.values
  }

  predicate RelationshipHolds(definition: Definition, r: Resource, j: nat, site: RelationshipSite, flaw: Flaw)
    requires j < |r.relationships|
  {
    var x := r.relationships[j];
    match site
    case RelationshipKey => flaw == DuplicateKey && ClaimedBefore(RelationshipKeys(r.relationships), j)
    case RelationshipTarget => flaw == UnknownResource && ResourceNamed(definition.resources, x.target).None?
    case ForeignKey => TravelsBadly(definition, r, x, flaw)
  }

  predicate TableHolds(r: Resource, site: TableSite, flaw: Flaw) {
    match site
    case Column(j) => j < |r.view.columns| && ListsBadly(FieldNamed(r.fields, r.view.columns[j]), flaw)
    case SortField => ListsBadly(FieldNamed(r.fields, r.view.sortField), flaw)
    case Searched(j) => j < |r.view.search| && SearchesBadly(FieldNamed(r.fields, r.view.search[j]), flaw)
    case ItsFilter(j) => j < |r.view.filters| && FiltersBadly(FieldNamed(r.fields, r.view.filters[j].field), flaw)
    case FilterField(j) => j < |r.view.filters| && ListsBadly(FieldNamed(r.fields, r.view.filters[j].field), flaw)
    case FilterKind(j) =>
      && j < |r.view.filters|
      && FiltersAmiss(FieldNamed(r.fields, r.view.filters[j].field), r.view.filters[j].kind, flaw)
  }

  predicate DetailHolds(r: Resource, site: DetailSite, flaw: Flaw) {
    match site
    case SectionField(s, j) =>
      && s < |r.detail.sections| && j < |r.detail.sections[s]|
      && flaw == UnknownField && FieldNamed(r.fields, r.detail.sections[s][j]).None?
    case RelatedLayout => flaw == TabsOfNothing && r.detail.tabs && r.detail.relatedLists == []
    case RelatedList(j) =>
      && j < |r.detail.relatedLists| && flaw == UnknownRelationship
      && forall x :: x in r.relationships ==> x.key != r.detail.relatedLists[j]
  }

  ghost predicate ActionHolds(r: Resource, j: nat, site: ActionSite, flaw: Flaw)
    requires j < |r.actions|
  {
    var a := r.actions[j];
    match site
    case ActionKey => flaw == DuplicateKey && ClaimedBefore(ActionKeys(r.actions), j)
    case ActionField => a.DbUpdate? && UpdatesBadly(FieldNamed(r.fields, a.field), flaw)
    case ActionValue => a.DbUpdate? && WritesBadly(FieldNamed(r.fields, a.field), a.value, flaw)
    case ActionUrl =>
      && a.HttpCall?
      && exists hole :: hole in Holes(Pieces(a.url)) && NamesBadly(FieldNamed(r.fields, hole), flaw)
    case OfferedWhen => a.visibleWhen.Some? && StatesBadly(r, a.visibleWhen.value, flaw)
    case WhenField => a.visibleWhen.Some? && AsksBadly(r, a.visibleWhen.value, flaw)
    case WhenEquals => a.visibleWhen.Some? && EqualsBadly(r, a.visibleWhen.value, flaw)
  }

  /** The flaw is there at the site. */
  ghost predicate Holds(definition: Definition, i: nat, site: Site, flaw: Flaw)
    requires i < |definition.resources|
  {
    var r := definition.resources[i];
    match site
    case Own(own) => OwnHolds(definition, i, own, flaw)
    case OfField(j, field) => j < |r.fields| && FieldHolds(definition, r, j, field, flaw)
    case OfRelationship(j, x) => j < |r.relationships| && RelationshipHolds(definition, r, j, x, flaw)
    case OfTable(table) => TableHolds(r, table, flaw)
    case OfDetail(detail) => DetailHolds(r, detail, flaw)
    case OfAction(j, action) => j < |r.actions| && ActionHolds(r, j, action, flaw)
  }

  function Of(i: nat): Path {
    [Name("resources"), Index(i)]
  }

  /** The flaw is reported where it is. */
  ghost predicate Stands(definition: Definition, i: nat, site: Site, p: Problem)
    requires i < |definition.resources|
  {
    p.at == Of(i) + PathOf(site) && Holds(definition, i, site, p.flaw)
  }

  ghost predicate DeservedBy(definition: Definition, i: nat, p: Problem) {
    i < |definition.resources| &&
    exists site :: Stands(definition, i, site, p)
  }

  /** An entry of the navigation that names nothing, or what an earlier one did. */
  ghost predicate DeservedByEntry(definition: Definition, g: nat, n: nat, p: Problem) {
    && g < |definition.navigation| && n < |definition.navigation[g]|
    && p.at == [Name("navigation"), Index(g), Name("resources"), Index(n)]
    && var key := definition.navigation[g][n];
       match p.flaw
       case UnknownResource => ResourceNamed(definition.resources, key).None?
       case ListedTwice =>
         && ResourceNamed(definition.resources, key).Some?
         && (key in definition.navigation[g][..n] || exists h :: 0 <= h < g && key in definition.navigation[h])
       case _ => false
  }

  ghost predicate Deserved(definition: Definition, p: Problem) {
    || (exists i: nat :: DeservedBy(definition, i, p))
    || (exists g: nat, n: nat :: DeservedByEntry(definition, g, n, p))
  }

  // -------------------------------------------------------------- the tools

  lemma {:induction false} ReportedOfSome<T>(items: seq<T>, rule: Rule<T>, n: nat, p: Problem)
    requires n <= |items|
    ensures p in Reported(items, rule, n) <==> exists j: nat :: j < n && p in rule(items[j], j)
  {
    if n > 0 {
      ReportedOfSome(items, rule, n - 1, p);
    }
  }

  lemma FieldNamedInFront(fields: seq<Field>, last: Field, key: Key)
    ensures FieldNamed(fields + [last], key) ==
            if FieldNamed(fields, key).Some? then FieldNamed(fields, key)
            else if last.key == key then Some(last) else None
    decreases |fields|
  {
    if fields == [] {
      assert [last][1..] == [] && FieldNamed([], key) == None;
      assert fields + [last] == [last];
    } else {
      FieldNamedInFront(fields[1..], last, key);
      assert (fields + [last])[1..] == fields[1..] + [last] && (fields + [last])[0] == fields[0];
    }
  }

  /** The checker's index finds the field that its key names. */
  lemma {:induction false} FirstIsNamed(fields: seq<Field>, key: Key)
    ensures key in FirstFields(fields) <==> FieldNamed(fields, key).Some?
    ensures key in FirstFields(fields) ==> FirstFields(fields)[key] == FieldNamed(fields, key).value
  {
    if fields != [] {
      var init, last := fields[..|fields| - 1], fields[|fields| - 1];
      FirstIsNamed(init, key);
      FieldNamedInFront(init, last, key);
      assert fields == init + [last];
    }
  }

  lemma ResourceNamedInFront(resources: seq<Resource>, last: Resource, key: Key)
    ensures ResourceNamed(resources + [last], key) ==
            if ResourceNamed(resources, key).Some? then ResourceNamed(resources, key)
            else if last.key == key then Some(last) else None
    decreases |resources|
  {
    if resources == [] {
      assert [last][1..] == [] && ResourceNamed([], key) == None;
      assert resources + [last] == [last];
    } else {
      ResourceNamedInFront(resources[1..], last, key);
      assert (resources + [last])[1..] == resources[1..] + [last] && (resources + [last])[0] == resources[0];
    }
  }

  lemma {:induction false} FirstResourceIsNamed(resources: seq<Resource>, key: Key)
    ensures key in FirstResources(resources) <==> ResourceNamed(resources, key).Some?
    ensures key in FirstResources(resources) ==> FirstResources(resources)[key] == ResourceNamed(resources, key).value
  {
    if resources != [] {
      var init, last := resources[..|resources| - 1], resources[|resources| - 1];
      FirstResourceIsNamed(init, key);
      ResourceNamedInFront(init, last, key);
      assert resources == init + [last];
    }
  }

  // ----------------------------------------------------- entry by entry

  lemma EditingMeans(r: Resource, at: Path, j: nat, p: Problem)
    requires j < |r.fields|
    ensures p in EditingProblems(r, r.fields[j], At(at, "fields", j)) <==>
            || (p.at == at + PathOf(OfField(j, FieldRequired)) && p.flaw == RequiredNotEditable &&
                r.fields[j].required && !r.fields[j].editable)
            || (p.at == at + PathOf(OfField(j, FieldEditable)) && EditsBadly(r, r.fields[j], p.flaw))
  {
    assert At(at, "fields", j) + [Name("required")] == at + PathOf(OfField(j, FieldRequired));
    assert At(at, "fields", j) + [Name("editable")] == at + PathOf(OfField(j, FieldEditable));
  }

  lemma RelationshipMeans(definition: Definition, r: Resource, at: Path, j: nat, p: Problem)
    requires j < |r.relationships|
    ensures p in RelationshipProblems(
                   r.relationships[j], At(at, "relationships", j), r, FirstResources(definition.resources)) <==>
            || (p.at == at + PathOf(OfRelationship(j, RelationshipTarget)) && p.flaw == UnknownResource &&
                ResourceNamed(definition.resources, r.relationships[j].target).None?)
            || (p.at == at + PathOf(OfRelationship(j, ForeignKey)) && TravelsBadly(definition, r, r.relationships[j], p.flaw))
  {
    hide FirstResources, ResourceNamed, FieldNamed;
    FirstResourceIsNamed(definition.resources, r.relationships[j].target);
    assert At(at, "relationships", j) + [Name("target")] == at + PathOf(OfRelationship(j, RelationshipTarget));
    assert At(at, "relationships", j) + [Name("foreignKey")] == at + PathOf(OfRelationship(j, ForeignKey));
  }

  lemma FieldTonesMean(field: Field, at: Path, j: nat, p: Problem)
    ensures p in ToneProblems(field, At(at, "fields", j)) <==>
            exists tone :: p.at == at + PathOf(OfField(j, FieldTone(tone))) && p.flaw == NotAValueToTone
              && field.kind.Enum? && tone in field.kind.tones && tone !in field.kind.values
  {
    if field.kind.Enum? {
      var values, tones := field.kind.values, field.kind.tones;
      var rule := Toning(values, At(at, "fields", j));
      ReportedOfSome(tones, rule, |tones|, p);
      forall k: nat | k < |tones|
        ensures p in rule(tones[k], k) <==>
                p.at == at + PathOf(OfField(j, FieldTone(tones[k]))) && p.flaw == NotAValueToTone && tones[k] !in values
      {
        assert At(at, "fields", j) + [Name("tones"), Name(tones[k])] == at + PathOf(OfField(j, FieldTone(tones[k])));
      }
      hide Reported, Toning, PathOf;
    }
  }

  lemma ListingMeans(fields: seq<Field>, key: Key, at: Path, p: Problem)
    ensures p in ListingProblems(key, at, FirstFields(fields)) <==>
            p.at == at && ListsBadly(FieldNamed(fields, key), p.flaw)
    ensures Listable(FirstFields(fields), key) <==> MayList(FieldNamed(fields, key))
  {
    FirstIsNamed(fields, key);
    hide FirstFields, FieldNamed;
  }

  lemma TablePaths(at: Path, j: nat)
    ensures At(TablePath(at), "columns", j) == at + PathOf(OfTable(Column(j)))
    ensures SortPath(TablePath(at)) == at + PathOf(OfTable(SortField))
    ensures At(TablePath(at), "search", j) == at + PathOf(OfTable(Searched(j)))
  {
  }

  lemma FilterPaths(at: Path, j: nat)
    ensures At(TablePath(at), "filters", j) == at + PathOf(OfTable(ItsFilter(j)))
    ensures At(TablePath(at), "filters", j) + [Name("field")] == at + PathOf(OfTable(FilterField(j)))
    ensures At(TablePath(at), "filters", j) + [Name("kind")] == at + PathOf(OfTable(FilterKind(j)))
  {
  }

  lemma SearchFlaws(r: Resource, at: Path, j: nat, p: Problem)
    requires j < |r.view.search|
    ensures p in Searching(at, FirstFields(r.fields))(r.view.search[j], j) <==>
            p.at == At(at, "search", j) && SearchesBadly(FieldNamed(r.fields, r.view.search[j]), p.flaw)
  {
    ListingMeans(r.fields, r.view.search[j], At(at, "search", j), p);
    FirstIsNamed(r.fields, r.view.search[j]);
    hide ListingProblems, ListsBadly, FirstFields, FieldNamed, At;
  }

  /** What one filter is reported for. */
  predicate FilterReported(r: Resource, at: Path, j: nat, p: Problem)
    requires j < |r.view.filters|
  {
    var named := FieldNamed(r.fields, r.view.filters[j].field);
    || (p.at == at + PathOf(OfTable(FilterField(j))) && ListsBadly(named, p.flaw))
    || (p.at == at + PathOf(OfTable(ItsFilter(j))) && FiltersBadly(named, p.flaw))
    || (p.at == at + PathOf(OfTable(FilterKind(j))) && FiltersAmiss(named, r.view.filters[j].kind, p.flaw))
  }

  lemma FilterFlaws(r: Resource, at: Path, j: nat, p: Problem)
    requires j < |r.view.filters|
    ensures var named, path := FieldNamed(r.fields, r.view.filters[j].field), At(at, "filters", j);
            p in Filtering(at, FirstFields(r.fields))(r.view.filters[j], j) <==>
            || (p.at == path + [Name("field")] && ListsBadly(named, p.flaw))
            || (p.at == path && FiltersBadly(named, p.flaw))
            || (p.at == path + [Name("kind")] && FiltersAmiss(named, r.view.filters[j].kind, p.flaw))
  {
    ListingMeans(r.fields, r.view.filters[j].field, At(at, "filters", j) + [Name("field")], p);
    FirstIsNamed(r.fields, r.view.filters[j].field);
    hide ListingProblems, ListsBadly, FirstFields, FieldNamed, At;
  }

  lemma FilterMeans(r: Resource, at: Path, j: nat, p: Problem)
    requires j < |r.view.filters|
    ensures p in Filtering(TablePath(at), FirstFields(r.fields))(r.view.filters[j], j) <==> FilterReported(r, at, j, p)
  {
    FilterPaths(at, j);
    FilterFlaws(r, TablePath(at), j, p);
    hide Filtering, ListsBadly, FiltersBadly, FiltersAmiss, FirstFields, FieldNamed, PathOf, At, TablePath;
  }

  lemma SectionMeans(r: Resource, at: Path, s: nat, p: Problem)
    requires s < |r.detail.sections|
    ensures p in SectionProblems(r.detail.sections[s], At(DetailPath(at), "sections", s), FirstFields(r.fields)) <==>
            exists j: nat :: j < |r.detail.sections[s]| && p.at == at + PathOf(OfDetail(SectionField(s, j))) &&
              p.flaw == UnknownField && FieldNamed(r.fields, r.detail.sections[s][j]).None?
  {
    var section, path := r.detail.sections[s], At(DetailPath(at), "sections", s);
    var rule := Placing(path, FirstFields(r.fields));
    ReportedOfSome(section, rule, |section|, p);
    forall j: nat | j < |section|
      ensures p in rule(section[j], j) <==>
              && p.at == at + PathOf(OfDetail(SectionField(s, j))) && p.flaw == UnknownField
              && FieldNamed(r.fields, section[j]).None?
    {
      FirstIsNamed(r.fields, section[j]);
      assert At(path, "fields", j) == at + PathOf(OfDetail(SectionField(s, j)));
      hide FirstFields, FieldNamed, PathOf;
    }
    hide Reported, Placing, PathOf, FirstFields, FieldNamed;
  }

  lemma KeysOfRelationships(relationships: seq<Relationship>, key: Key)
    ensures key in RelationshipKeys(relationships) <==> exists x :: x in relationships && x.key == key
  {
    var keys := RelationshipKeys(relationships);
    if x :| x in relationships && x.key == key {
      var i :| 0 <= i < |relationships| && relationships[i] == x;
      assert keys[i] == key;
    }
    if key in keys {
      var i :| 0 <= i < |keys| && keys[i] == key;
      assert relationships[i] in relationships;
    }
  }

  lemma HoleMeans(fields: seq<Field>, holes: seq<string>, at: Path, i: nat, p: Problem)
    requires i < |holes|
    ensures p in Interpolating(holes, at, FirstFields(fields))(holes[i], i) <==>
            holes[i] !in holes[..i] && p.at == at + [Name("url")] && NamesBadly(FieldNamed(fields, holes[i]), p.flaw)
  {
    FirstIsNamed(fields, holes[i]);
    hide FirstFields, FieldNamed;
  }

  lemma {:induction false} HolesMean(fields: seq<Field>, holes: seq<string>, at: Path, n: nat, p: Problem)
    requires n <= |holes|
    ensures p in Reported(holes, Interpolating(holes, at, FirstFields(fields)), n) <==>
            p.at == at + [Name("url")] && exists hole :: hole in holes[..n] && NamesBadly(FieldNamed(fields, hole), p.flaw)
  {
    hide FirstFields, FieldNamed;
    if n > 0 {
      HolesMean(fields, holes, at, n - 1, p);
      HoleMeans(fields, holes, at, n - 1, p);
      assert holes[..n] == holes[..n - 1] + [holes[n - 1]];
      hide Interpolating, NamesBadly;
    }
  }

  lemma UpdateFlaws(r: Resource, at: Path, key: Key, value: Value, p: Problem)
    ensures p in UpdateProblems(key, value, at, FirstFields(r.fields)) <==>
            || (p.at == at + [Name("field")] && UpdatesBadly(FieldNamed(r.fields, key), p.flaw))
            || (p.at == at + [Name("value")] && WritesBadly(FieldNamed(r.fields, key), value, p.flaw))
  {
    FirstIsNamed(r.fields, key);
    hide FirstFields, FieldNamed;
  }

  lemma UpdateMeans(r: Resource, at: Path, j: nat, key: Key, value: Value, p: Problem)
    ensures p in UpdateProblems(key, value, At(at, "actions", j), FirstFields(r.fields)) <==>
            || (p.at == at + PathOf(OfAction(j, ActionField)) && UpdatesBadly(FieldNamed(r.fields, key), p.flaw))
            || (p.at == at + PathOf(OfAction(j, ActionValue)) && WritesBadly(FieldNamed(r.fields, key), value, p.flaw))
  {
    UpdateFlaws(r, At(at, "actions", j), key, value, p);
    hide UpdateProblems, UpdatesBadly, WritesBadly, FirstFields, FieldNamed;
    assert At(at, "actions", j) + [Name("field")] == at + PathOf(OfAction(j, ActionField));
    assert At(at, "actions", j) + [Name("value")] == at + PathOf(OfAction(j, ActionValue));
  }

  lemma ConditionFlaws(r: Resource, at: Path, when: VisibleWhen, p: Problem)
    ensures p in ConditionProblems(when, at, FirstFields(r.fields)) <==>
            || (p.at == at && StatesBadly(r, when, p.flaw))
            || (p.at == at + [Name("field")] && AsksBadly(r, when, p.flaw))
            || (p.at == at + [Name("equals")] && EqualsBadly(r, when, p.flaw))
  {
    FirstIsNamed(r.fields, when.field);
    hide FirstFields, FieldNamed;
  }

  lemma ConditionMeans(r: Resource, at: Path, j: nat, when: VisibleWhen, p: Problem)
    ensures p in ConditionProblems(when, At(at, "actions", j) + [Name("visibleWhen")], FirstFields(r.fields)) <==>
            || (p.at == at + PathOf(OfAction(j, OfferedWhen)) && StatesBadly(r, when, p.flaw))
            || (p.at == at + PathOf(OfAction(j, WhenField)) && AsksBadly(r, when, p.flaw))
            || (p.at == at + PathOf(OfAction(j, WhenEquals)) && EqualsBadly(r, when, p.flaw))
  {
    var path := At(at, "actions", j) + [Name("visibleWhen")];
    ConditionFlaws(r, path, when, p);
    hide ConditionProblems, StatesBadly, AsksBadly, EqualsBadly, FirstFields;
    assert path == at + PathOf(OfAction(j, OfferedWhen));
    assert path + [Name("field")] == at + PathOf(OfAction(j, WhenField));
    assert path + [Name("equals")] == at + PathOf(OfAction(j, WhenEquals));
  }

  predicate ConditionReported(r: Resource, at: Path, j: nat, p: Problem)
    requires j < |r.actions|
  {
    var asked := r.actions[j].visibleWhen;
    asked.Some? &&
    (|| (p.at == at + PathOf(OfAction(j, OfferedWhen)) && StatesBadly(r, asked.value, p.flaw))
     || (p.at == at + PathOf(OfAction(j, WhenField)) && AsksBadly(r, asked.value, p.flaw))
     || (p.at == at + PathOf(OfAction(j, WhenEquals)) && EqualsBadly(r, asked.value, p.flaw)))
  }

  ghost predicate WorkReported(r: Resource, at: Path, j: nat, p: Problem)
    requires j < |r.actions|
  {
    match r.actions[j]
    case DbUpdate(_, key, value, _) =>
      || (p.at == at + PathOf(OfAction(j, ActionField)) && UpdatesBadly(FieldNamed(r.fields, key), p.flaw))
      || (p.at == at + PathOf(OfAction(j, ActionValue)) && WritesBadly(FieldNamed(r.fields, key), value, p.flaw))
    case HttpCall(_, url, _) =>
      && p.at == at + PathOf(OfAction(j, ActionUrl))
      && exists hole :: hole in Holes(Pieces(url)) && NamesBadly(FieldNamed(r.fields, hole), p.flaw)
  }

  lemma WorkMeans(r: Resource, at: Path, j: nat, p: Problem)
    requires j < |r.actions|
    ensures p in WorkProblems(r.actions[j], At(at, "actions", j), FirstFields(r.fields)) <==> WorkReported(r, at, j, p)
  {
    match r.actions[j]
    case DbUpdate(_, key, value, _) =>
      UpdateMeans(r, at, j, key, value, p);
      hide UpdateProblems, UpdatesBadly, WritesBadly, PathOf, FirstFields, FieldNamed;
    case HttpCall(_, url, _) =>
      var holes := Holes(Pieces(url));
      HolesMean(r.fields, holes, At(at, "actions", j), |holes|, p);
      assert holes[..|holes|] == holes;
      assert At(at, "actions", j) + [Name("url")] == at + PathOf(OfAction(j, ActionUrl));
      hide Interpolating, Reported, NamesBadly, PathOf, FirstFields, FieldNamed, Pieces, Holes;
  }

  lemma ActionMeans(r: Resource, at: Path, j: nat, p: Problem)
    requires j < |r.actions|
    ensures p in ActionProblems(r.actions[j], At(at, "actions", j), FirstFields(r.fields)) <==>
            ConditionReported(r, at, j, p) || WorkReported(r, at, j, p)
  {
    hide ConditionProblems, WorkProblems, WorkReported, StatesBadly, AsksBadly, EqualsBadly, PathOf, FirstFields;
    WorkMeans(r, at, j, p);
    if r.actions[j].visibleWhen.Some? {
      ConditionMeans(r, at, j, r.actions[j].visibleWhen.value, p);
    }
  }

  // ------------------------------------------------------- list by list

  lemma ClaimMeans(keys: seq<Key>, at: Path, list: string, j: nat, p: Problem)
    requires j < |keys|
    ensures p in Claimed(keys, at, list)(keys[j], j) <==>
            p.at == at + ([Name(list), Index(j)] + [Name("key")]) && p.flaw == DuplicateKey && ClaimedBefore(keys, j)
  {
    assert At(at, list, j) + [Name("key")] == at + ([Name(list), Index(j)] + [Name("key")]);
    assert keys[j] in keys[..j] <==> ClaimedBefore(keys, j);
  }

  lemma DuplicateFieldsStand(definition: Definition, i: nat, p: Problem)
    requires i < |definition.resources|
    ensures var r := definition.resources[i];
            p in Duplicates(FieldKeys(r.fields), Of(i), "fields") <==>
            exists j: nat :: Stands(definition, i, OfField(j, FieldKey), p)
  {
    var r := definition.resources[i];
    var keys := FieldKeys(r.fields);
    var rule := Claimed(keys, Of(i), "fields");
    ReportedOfSome(keys, rule, |keys|, p);
    forall j: nat ensures j < |keys| && p in rule(keys[j], j) <==> Stands(definition, i, OfField(j, FieldKey), p) {
      if j < |keys| {
        ClaimMeans(keys, Of(i), "fields", j, p);
      }
      hide ClaimedBefore;
    }
    hide Reported, Claimed, Stands;
  }

  lemma DuplicateRelationshipsStand(definition: Definition, i: nat, p: Problem)
    requires i < |definition.resources|
    ensures var r := definition.resources[i];
            p in Duplicates(RelationshipKeys(r.relationships), Of(i), "relationships") <==>
            exists j: nat :: Stands(definition, i, OfRelationship(j, RelationshipKey), p)
  {
    var r := definition.resources[i];
    var keys := RelationshipKeys(r.relationships);
    var rule := Claimed(keys, Of(i), "relationships");
    ReportedOfSome(keys, rule, |keys|, p);
    forall j: nat ensures j < |keys| && p in rule(keys[j], j) <==> Stands(definition, i, OfRelationship(j, RelationshipKey), p) {
      if j < |keys| {
        ClaimMeans(keys, Of(i), "relationships", j, p);
      }
      hide ClaimedBefore;
    }
    hide Reported, Claimed, Stands;
  }

  lemma DuplicateActionsStand(definition: Definition, i: nat, p: Problem)
    requires i < |definition.resources|
    ensures var r := definition.resources[i];
            p in Duplicates(ActionKeys(r.actions), Of(i), "actions") <==>
            exists j: nat :: Stands(definition, i, OfAction(j, ActionKey), p)
  {
    var r := definition.resources[i];
    var keys := ActionKeys(r.actions);
    var rule := Claimed(keys, Of(i), "actions");
    ReportedOfSome(keys, rule, |keys|, p);
    forall j: nat ensures j < |keys| && p in rule(keys[j], j) <==> Stands(definition, i, OfAction(j, ActionKey), p) {
      if j < |keys| {
        ClaimMeans(keys, Of(i), "actions", j, p);
      }
      hide ClaimedBefore;
    }
    hide Reported, Claimed, Stands;
  }

  lemma WritesStand(definition: Definition, i: nat, p: Problem)
    requires i < |definition.resources|
    ensures var r := definition.resources[i];
            p in Reported(r.fields, OnlyFirst(r.fields, Editing(r, Of(i))), |r.fields|) <==>
            exists j: nat ::
              Stands(definition, i, OfField(j, FieldRequired), p) || Stands(definition, i, OfField(j, FieldEditable), p)
  {
    var r := definition.resources[i];
    var rule := OnlyFirst(r.fields, Editing(r, Of(i)));
    ReportedOfSome(r.fields, rule, |r.fields|, p);
    forall j: nat
      ensures j < |r.fields| && p in rule(r.fields[j], j) <==>
              Stands(definition, i, OfField(j, FieldRequired), p) || Stands(definition, i, OfField(j, FieldEditable), p)
    {
      if j < |r.fields| {
        EditingMeans(r, Of(i), j, p);
        var keys := FieldKeys(r.fields);
        assert keys[j] in keys[..j] <==> ClaimedBefore(keys, j);
      }
      hide EditingProblems, EditsBadly;
    }
    hide Reported, Stands, OnlyFirst;
  }

  lemma TargetsStand(definition: Definition, i: nat, p: Problem)
    requires i < |definition.resources|
    ensures var r := definition.resources[i];
            p in Reported(r.fields, Pointing(Of(i), FirstResources(definition.resources)), |r.fields|) <==>
            exists j: nat :: Stands(definition, i, OfField(j, FieldTarget), p)
  {
    var r := definition.resources[i];
    var rule := Pointing(Of(i), FirstResources(definition.resources));
    ReportedOfSome(r.fields, rule, |r.fields|, p);
    forall j: nat
      ensures j < |r.fields| && p in rule(r.fields[j], j) <==> Stands(definition, i, OfField(j, FieldTarget), p)
    {
      if j < |r.fields| && r.fields[j].kind.Relation? {
        FirstResourceIsNamed(definition.resources, r.fields[j].kind.target);
      }
      assert At(Of(i), "fields", j) + [Name("target")] == Of(i) + PathOf(OfField(j, FieldTarget));
      hide FirstResources, ResourceNamed;
    }
    hide Reported, Stands, Pointing;
  }

  lemma RelationshipsStand(definition: Definition, i: nat, p: Problem)
    requires i < |definition.resources|
    ensures var r := definition.resources[i];
            p in Reported(r.relationships, Relating(r, Of(i), FirstResources(definition.resources)), |r.relationships|) <==>
            exists j: nat ::
              || Stands(definition, i, OfRelationship(j, RelationshipTarget), p)
              || Stands(definition, i, OfRelationship(j, ForeignKey), p)
  {
    var r := definition.resources[i];
    var rule := Relating(r, Of(i), FirstResources(definition.resources));
    ReportedOfSome(r.relationships, rule, |r.relationships|, p);
    forall j: nat
      ensures j < |r.relationships| && p in rule(r.relationships[j], j) <==>
              || Stands(definition, i, OfRelationship(j, RelationshipTarget), p)
              || Stands(definition, i, OfRelationship(j, ForeignKey), p)
    {
      if j < |r.relationships| {
        RelationshipMeans(definition, r, Of(i), j, p);
      }
      hide RelationshipProblems, TravelsBadly, ResourceNamed;
    }
    hide Reported, Stands, Relating;
  }

  lemma FieldTonesStand(definition: Definition, i: nat, j: nat, p: Problem)
    requires i < |definition.resources|
    ensures var r := definition.resources[i];
            j < |r.fields| && p in ToneProblems(r.fields[j], At(Of(i), "fields", j)) <==>
            exists tone :: Stands(definition, i, OfField(j, FieldTone(tone)), p)
  {
    hide ToneProblems;
    var r := definition.resources[i];
    if j < |r.fields| {
      FieldTonesMean(r.fields[j], Of(i), j, p);
    }
  }

  lemma TonesStand(definition: Definition, i: nat, p: Problem)
    requires i < |definition.resources|
    ensures var r := definition.resources[i];
            p in Reported(r.fields, Tinting(Of(i)), |r.fields|) <==>
            exists j: nat, tone :: Stands(definition, i, OfField(j, FieldTone(tone)), p)
  {
    hide Reported, Stands, ToneProblems, At, Of;
    var r := definition.resources[i];
    var rule := Tinting(Of(i));
    ReportedOfSome(r.fields, rule, |r.fields|, p);
    if j: nat :| j < |r.fields| && p in rule(r.fields[j], j) {
      FieldTonesStand(definition, i, j, p);
    }
    if j: nat, tone :| Stands(definition, i, OfField(j, FieldTone(tone)), p) {
      FieldTonesStand(definition, i, j, p);
      assert p in rule(r.fields[j], j);
    }
  }

  lemma ColumnsStand(definition: Definition, i: nat, p: Problem)
    requires i < |definition.resources|
    ensures var r := definition.resources[i];
            p in Reported(r.view.columns, Showing(TablePath(Of(i)), FirstFields(r.fields)), |r.view.columns|) <==>
            exists j: nat :: Stands(definition, i, OfTable(Column(j)), p)
  {
    var r := definition.resources[i];
    var rule := Showing(TablePath(Of(i)), FirstFields(r.fields));
    ReportedOfSome(r.view.columns, rule, |r.view.columns|, p);
    forall j: nat
      ensures j < |r.view.columns| && p in rule(r.view.columns[j], j) <==> Stands(definition, i, OfTable(Column(j)), p)
    {
      TablePaths(Of(i), j);
      if j < |r.view.columns| {
        ListingMeans(r.fields, r.view.columns[j], At(TablePath(Of(i)), "columns", j), p);
      }
      hide At, TablePath, ListingProblems, ListsBadly, FirstFields, FieldNamed;
    }
    hide Reported, Stands, Showing;
  }

  lemma SearchStands(definition: Definition, i: nat, p: Problem)
    requires i < |definition.resources|
    ensures var r := definition.resources[i];
            p in Reported(r.view.search, Searching(TablePath(Of(i)), FirstFields(r.fields)), |r.view.search|) <==>
            exists j: nat :: Stands(definition, i, OfTable(Searched(j)), p)
  {
    var r := definition.resources[i];
    var rule := Searching(TablePath(Of(i)), FirstFields(r.fields));
    ReportedOfSome(r.view.search, rule, |r.view.search|, p);
    forall j: nat
      ensures j < |r.view.search| && p in rule(r.view.search[j], j) <==> Stands(definition, i, OfTable(Searched(j)), p)
    {
      TablePaths(Of(i), j);
      if j < |r.view.search| {
        SearchFlaws(r, TablePath(Of(i)), j, p);
      }
      hide At, TablePath, Searching, SearchesBadly, FirstFields, FieldNamed;
    }
    hide Reported, Stands, Searching;
  }

  ghost predicate FilterStands(definition: Definition, i: nat, j: nat, p: Problem)
    requires i < |definition.resources|
  {
    || Stands(definition, i, OfTable(FilterField(j)), p)
    || Stands(definition, i, OfTable(ItsFilter(j)), p)
    || Stands(definition, i, OfTable(FilterKind(j)), p)
  }

  lemma FilterStandsWhereReported(definition: Definition, i: nat, j: nat, p: Problem)
    requires i < |definition.resources|
    ensures var r := definition.resources[i];
            FilterStands(definition, i, j, p) <==> j < |r.view.filters| && FilterReported(r, Of(i), j, p)
  {
    hide PathOf, ListsBadly, FiltersBadly, FiltersAmiss, FieldNamed;
  }

  lemma FiltersStand(definition: Definition, i: nat, p: Problem)
    requires i < |definition.resources|
    ensures var r := definition.resources[i];
            p in Reported(r.view.filters, Filtering(TablePath(Of(i)), FirstFields(r.fields)), |r.view.filters|) <==>
            exists j: nat :: FilterStands(definition, i, j, p)
  {
    hide Reported, FilterStands, Filtering;
    var r := definition.resources[i];
    var rule := Filtering(TablePath(Of(i)), FirstFields(r.fields));
    ReportedOfSome(r.view.filters, rule, |r.view.filters|, p);
    forall j: nat
      ensures j < |r.view.filters| && p in rule(r.view.filters[j], j) <==> FilterStands(definition, i, j, p)
    {
      if j < |r.view.filters| {
        FilterMeans(r, Of(i), j, p);
      }
      FilterStandsWhereReported(definition, i, j, p);
      hide FilterStands, FilterReported, Filtering, TablePath;
    }
  }

  lemma SectionsStand(definition: Definition, i: nat, p: Problem)
    requires i < |definition.resources|
    ensures var r := definition.resources[i];
            p in Reported(r.detail.sections, Sectioning(DetailPath(Of(i)), FirstFields(r.fields)), |r.detail.sections|) <==>
            exists j: nat, k: nat :: Stands(definition, i, OfDetail(SectionField(j, k)), p)
  {
    var r := definition.resources[i];
    var rule := Sectioning(DetailPath(Of(i)), FirstFields(r.fields));
    ReportedOfSome(r.detail.sections, rule, |r.detail.sections|, p);
    forall j: nat
      ensures j < |r.detail.sections| && p in rule(r.detail.sections[j], j) <==>
              exists k: nat :: Stands(definition, i, OfDetail(SectionField(j, k)), p)
    {
      if j < |r.detail.sections| {
        SectionMeans(r, Of(i), j, p);
      }
      hide DetailPath, SectionProblems, FirstFields, FieldNamed;
    }
    hide Reported, Stands, Sectioning;
  }

  lemma RelatedListsStand(definition: Definition, i: nat, p: Problem)
    requires i < |definition.resources|
    ensures var r := definition.resources[i];
            p in Reported(r.detail.relatedLists, Embedding(DetailPath(Of(i)), RelationshipKeys(r.relationships)), |r.detail.relatedLists|) <==>
            exists j: nat :: Stands(definition, i, OfDetail(RelatedList(j)), p)
  {
    var r := definition.resources[i];
    var rule := Embedding(DetailPath(Of(i)), RelationshipKeys(r.relationships));
    ReportedOfSome(r.detail.relatedLists, rule, |r.detail.relatedLists|, p);
    forall j: nat
      ensures j < |r.detail.relatedLists| && p in rule(r.detail.relatedLists[j], j) <==>
              Stands(definition, i, OfDetail(RelatedList(j)), p)
    {
      assert At(DetailPath(Of(i)), "relatedLists", j) == Of(i) + PathOf(OfDetail(RelatedList(j)));
      if j < |r.detail.relatedLists| {
        KeysOfRelationships(r.relationships, r.detail.relatedLists[j]);
      }
    }
    hide Reported, Stands, Embedding;
  }

  /** Some flaw of an action is reported where it is. */
  ghost predicate ActionStands(definition: Definition, i: nat, j: nat, p: Problem)
    requires i < |definition.resources|
  {
    || Stands(definition, i, OfAction(j, ActionField), p)
    || Stands(definition, i, OfAction(j, ActionValue), p)
    || Stands(definition, i, OfAction(j, ActionUrl), p)
    || Stands(definition, i, OfAction(j, OfferedWhen), p)
    || Stands(definition, i, OfAction(j, WhenField), p)
    || Stands(definition, i, OfAction(j, WhenEquals), p)
  }

  lemma ConditionStandsWhereReported(definition: Definition, i: nat, j: nat, p: Problem)
    requires i < |definition.resources| && j < |definition.resources[i].actions|
    ensures ConditionReported(definition.resources[i], Of(i), j, p) <==>
            || Stands(definition, i, OfAction(j, OfferedWhen), p)
            || Stands(definition, i, OfAction(j, WhenField), p)
            || Stands(definition, i, OfAction(j, WhenEquals), p)
  {
    hide PathOf, StatesBadly, AsksBadly, EqualsBadly;
  }

  lemma WorkStandsWhereReported(definition: Definition, i: nat, j: nat, p: Problem)
    requires i < |definition.resources| && j < |definition.resources[i].actions|
    ensures WorkReported(definition.resources[i], Of(i), j, p) <==>
            || Stands(definition, i, OfAction(j, ActionField), p)
            || Stands(definition, i, OfAction(j, ActionValue), p)
            || Stands(definition, i, OfAction(j, ActionUrl), p)
  {
    hide PathOf, UpdatesBadly, WritesBadly, NamesBadly, FieldNamed, Pieces, Holes;
  }

  lemma NoActionStands(definition: Definition, i: nat, j: nat, p: Problem)
    requires i < |definition.resources| && j >= |definition.resources[i].actions|
    ensures !ActionStands(definition, i, j, p)
  {
    hide PathOf, ActionHolds;
  }

  lemma ActionsStand(definition: Definition, i: nat, p: Problem)
    requires i < |definition.resources|
    ensures var r := definition.resources[i];
            p in Reported(r.actions, Acting(Of(i), FirstFields(r.fields)), |r.actions|) <==>
            exists j: nat :: ActionStands(definition, i, j, p)
  {
    var r := definition.resources[i];
    var rule := Acting(Of(i), FirstFields(r.fields));
    ReportedOfSome(r.actions, rule, |r.actions|, p);
    forall j: nat
      ensures j < |r.actions| && p in rule(r.actions[j], j) <==> ActionStands(definition, i, j, p)
    {
      if j < |r.actions| {
        ActionMeans(r, Of(i), j, p);
        ConditionStandsWhereReported(definition, i, j, p);
        WorkStandsWhereReported(definition, i, j, p);
      } else {
        NoActionStands(definition, i, j, p);
      }
      hide Stands, ActionProblems, ConditionReported, WorkReported;
    }
    hide Reported, Acting, ActionStands;
  }

  lemma OwnStand(definition: Definition, i: nat, p: Problem)
    requires i < |definition.resources|
    ensures var r := definition.resources[i];
            && (p in KeyProblems(r, Of(i), FirstFields(r.fields)) <==> Stands(definition, i, Own(PrimaryKey), p))
            && (p in LabelProblems(r, Of(i), FirstFields(r.fields)) <==> Stands(definition, i, Own(LabelField), p))
  {
    hide FirstFields, FieldNamed, Of;
    var r := definition.resources[i];
    FirstIsNamed(r.fields, r.primaryKey);
    if r.labelField.Some? {
      FirstIsNamed(r.fields, r.labelField.value);
    }
  }

  lemma DeclarationsStand(definition: Definition, i: nat, p: Problem)
    requires i < |definition.resources|
    ensures var r := definition.resources[i];
            && (p in ReadOnlyProblems(r, Of(i)) <==> Stands(definition, i, Own(ReadOnly), p))
            && (p in GenerationProblems(r, Of(i)) <==> Stands(definition, i, Own(Generation), p))
            && (p in NothingEditable(r, Of(i)) <==> Stands(definition, i, Own(Writes), p))
  {
    hide Of;
  }

  lemma SortStands(definition: Definition, i: nat, p: Problem)
    requires i < |definition.resources|
    ensures var r := definition.resources[i];
            p in ListingProblems(r.view.sortField, SortPath(TablePath(Of(i))), FirstFields(r.fields)) <==>
            Stands(definition, i, OfTable(SortField), p)
  {
    hide TablePath, SortPath, ListingProblems, ListsBadly, FirstFields, FieldNamed;
    var r := definition.resources[i];
    TablePaths(Of(i), 0);
    ListingMeans(r.fields, r.view.sortField, SortPath(TablePath(Of(i))), p);
  }

  lemma LayoutStands(definition: Definition, i: nat, p: Problem)
    requires i < |definition.resources|
    ensures p in LayoutProblems(definition.resources[i].detail, DetailPath(Of(i))) <==>
            Stands(definition, i, OfDetail(RelatedLayout), p)
  {
    assert DetailPath(Of(i)) + [Name("relatedLayout")] == Of(i) + PathOf(OfDetail(RelatedLayout));
  }

  // -------------------------------------------------------- one resource

  lemma TableStands(definition: Definition, i: nat, p: Problem)
    requires i < |definition.resources|
    ensures var r := definition.resources[i];
            p in TableProblems(r.view, TablePath(Of(i)), FirstFields(r.fields)) <==>
            exists site :: Stands(definition, i, OfTable(site), p)
  {
    hide Stands, Reported, Showing, ListingProblems, Searching, Filtering, FirstFields, TablePath, SortPath;
    ColumnsStand(definition, i, p);
    SortStands(definition, i, p);
    SearchStands(definition, i, p);
    FiltersStand(definition, i, p);
    forall site | Stands(definition, i, OfTable(site), p)
      ensures var r := definition.resources[i]; p in TableProblems(r.view, TablePath(Of(i)), FirstFields(r.fields))
    {
      match site
      case Column(j) =>
      case SortField =>
      case Searched(j) =>
      case ItsFilter(j) => assert FilterStands(definition, i, j, p);
      case FilterField(j) => assert FilterStands(definition, i, j, p);
      case FilterKind(j) => assert FilterStands(definition, i, j, p);
    }
  }

  lemma DetailStands(definition: Definition, i: nat, p: Problem)
    requires i < |definition.resources|
    ensures var r := definition.resources[i];
            p in DetailProblems(r.detail, DetailPath(Of(i)), FirstFields(r.fields), RelationshipKeys(r.relationships)) <==>
            exists site :: Stands(definition, i, OfDetail(site), p)
  {
    hide Stands, Reported, Sectioning, LayoutProblems, Embedding, FirstFields, DetailPath;
    SectionsStand(definition, i, p);
    LayoutStands(definition, i, p);
    RelatedListsStand(definition, i, p);
    forall site | Stands(definition, i, OfDetail(site), p)
      ensures var r := definition.resources[i];
              p in DetailProblems(r.detail, DetailPath(Of(i)), FirstFields(r.fields), RelationshipKeys(r.relationships))
    {
      match site
      case SectionField(j, k) =>
      case RelatedLayout =>
      case RelatedList(j) =>
    }
  }

  lemma AnActionStands(definition: Definition, i: nat, j: nat, action: ActionSite, p: Problem)
    requires i < |definition.resources| && !action.ActionKey? && Stands(definition, i, OfAction(j, action), p)
    ensures ActionStands(definition, i, j, p)
  {
    hide Stands;
  }

  predicate OfKeys(site: Site) {
    || (site.OfField? && site.ofField.FieldKey?)
    || (site.OfRelationship? && site.ofRelationship.RelationshipKey?)
    || (site.OfAction? && site.ofAction.ActionKey?)
  }

  lemma UniqueStand(definition: Definition, i: nat, p: Problem)
    requires i < |definition.resources|
    ensures p in UniqueProblems(definition.resources[i], Of(i)) <==>
            exists site :: OfKeys(site) && Stands(definition, i, site, p)
  {
    hide Stands, Duplicates, Of;
    DuplicateFieldsStand(definition, i, p);
    DuplicateRelationshipsStand(definition, i, p);
    DuplicateActionsStand(definition, i, p);
    forall site | OfKeys(site) && Stands(definition, i, site, p)
      ensures p in UniqueProblems(definition.resources[i], Of(i))
    {
      match site
      case OfField(j, _) =>
      case OfRelationship(j, _) =>
      case OfAction(j, _) =>
    }
  }

  predicate OfItself(site: Site) {
    || (site.Own? && !site.own.Itself? && !site.own.ItsKey?)
    || (site.OfField? && (site.ofField.FieldRequired? || site.ofField.FieldEditable?))
  }

  lemma OwnIs(r: Resource, at: Path, fields: Fields, p: Problem)
    ensures p in OwnProblems(r, at, fields) <==>
            || p in KeyProblems(r, at, fields)
            || p in LabelProblems(r, at, fields)
            || p in ReadOnlyProblems(r, at)
            || p in GenerationProblems(r, at)
            || p in NothingEditable(r, at)
            || p in Reported(r.fields, OnlyFirst(r.fields, Editing(r, at)), |r.fields|)
  {
    hide KeyProblems, LabelProblems, ReadOnlyProblems, GenerationProblems, NothingEditable, Reported, OnlyFirst,
      Editing;
  }

  lemma ItselfStands(definition: Definition, i: nat, p: Problem)
    requires i < |definition.resources|
    ensures var r := definition.resources[i];
            p in OwnProblems(r, Of(i), FirstFields(r.fields)) <==>
            exists site :: OfItself(site) && Stands(definition, i, site, p)
  {
    hide Stands, OwnProblems, KeyProblems, LabelProblems, ReadOnlyProblems, GenerationProblems, NothingEditable,
      Reported, OnlyFirst,
      Editing, FirstFields, Of;
    OwnStand(definition, i, p);
    DeclarationsStand(definition, i, p);
    WritesStand(definition, i, p);
    OwnIs(definition.resources[i], Of(i), FirstFields(definition.resources[i].fields), p);
    forall site | OfItself(site) && Stands(definition, i, site, p)
      ensures var r := definition.resources[i]; p in OwnProblems(r, Of(i), FirstFields(r.fields))
    {
      match site
      case Own(_) =>
      case OfField(j, _) =>
    }
  }

  predicate OfOthers(site: Site) {
    || (site.OfField? && site.ofField.FieldTarget?)
    || (site.OfRelationship? && !site.ofRelationship.RelationshipKey?)
  }

  lemma OthersStand(definition: Definition, i: nat, p: Problem)
    requires i < |definition.resources|
    ensures var r := definition.resources[i];
            p in ReferenceProblems(r, Of(i), FirstResources(definition.resources)) <==>
            exists site :: OfOthers(site) && Stands(definition, i, site, p)
  {
    hide Stands, Reported, Pointing, Relating, FirstResources, Of;
    TargetsStand(definition, i, p);
    RelationshipsStand(definition, i, p);
    forall site | OfOthers(site) && Stands(definition, i, site, p)
      ensures p in ReferenceProblems(definition.resources[i], Of(i), FirstResources(definition.resources))
    {
      match site
      case OfField(j, _) =>
      case OfRelationship(j, _) =>
    }
  }

  predicate OfOffers(site: Site) {
    || (site.OfField? && site.ofField.FieldTone?)
    || site.OfTable? || site.OfDetail?
    || (site.OfAction? && !site.ofAction.ActionKey?)
  }

  lemma OffersAre(r: Resource, at: Path, fields: Fields, p: Problem)
    ensures p in OfferProblems(r, at, fields) <==>
            || p in Reported(r.fields, Tinting(at), |r.fields|)
            || p in TableProblems(r.view, TablePath(at), fields)
            || p in DetailProblems(r.detail, DetailPath(at), fields, RelationshipKeys(r.relationships))
            || p in Reported(r.actions, Acting(at, fields), |r.actions|)
  {
    hide Reported, Tinting, TableProblems, DetailProblems, Acting, TablePath, DetailPath;
  }

  lemma OffersStand(definition: Definition, i: nat, p: Problem)
    requires i < |definition.resources|
    ensures var r := definition.resources[i];
            p in OfferProblems(r, Of(i), FirstFields(r.fields)) <==>
            exists site :: OfOffers(site) && Stands(definition, i, site, p)
  {
    hide Stands, OfferProblems, Reported, Tinting, TableProblems, DetailProblems, Acting, FirstFields, TablePath,
      DetailPath, Of;
    TonesStand(definition, i, p);
    TableStands(definition, i, p);
    DetailStands(definition, i, p);
    ActionsStand(definition, i, p);
    OffersAre(definition.resources[i], Of(i), FirstFields(definition.resources[i].fields), p);
    forall site | OfOffers(site) && Stands(definition, i, site, p)
      ensures var r := definition.resources[i]; p in OfferProblems(r, Of(i), FirstFields(r.fields))
    {
      match site
      case OfField(j, _) =>
      case OfTable(_) =>
      case OfDetail(_) =>
      case OfAction(j, action) => AnActionStands(definition, i, j, action, p);
    }
  }

  /** Flawed in what its own pass asks: its key and its place in the navigation
      are the whole definition's to ask about. */
  ghost predicate StandsWithin(definition: Definition, i: nat, p: Problem) {
    i < |definition.resources| &&
    exists site :: site != Own(Itself) && site != Own(ItsKey) && Stands(definition, i, site, p)
  }

  lemma ResourceIs(r: Resource, at: Path, resources: map<Key, Resource>, p: Problem)
    ensures p in ResourceProblems(r, at, resources) <==>
            || p in UniqueProblems(r, at)
            || p in OwnProblems(r, at, FirstFields(r.fields))
            || p in ReferenceProblems(r, at, resources)
            || p in OfferProblems(r, at, FirstFields(r.fields))
  {
    hide UniqueProblems, OwnProblems, ReferenceProblems, OfferProblems, FirstFields;
  }

  lemma ResourceStands(definition: Definition, i: nat, p: Problem)
    requires i < |definition.resources|
    ensures p in ResourceProblems(definition.resources[i], Of(i), FirstResources(definition.resources)) <==>
            StandsWithin(definition, i, p)
  {
    hide Stands, ResourceProblems, UniqueProblems, OwnProblems, ReferenceProblems, OfferProblems, FirstFields,
      FirstResources, Of;
    UniqueStand(definition, i, p);
    ItselfStands(definition, i, p);
    OthersStand(definition, i, p);
    OffersStand(definition, i, p);
    ResourceIs(definition.resources[i], Of(i), FirstResources(definition.resources), p);
    forall site | site != Own(Itself) && site != Own(ItsKey)
      ensures OfKeys(site) || OfItself(site) || OfOthers(site) || OfOffers(site)
    {}
  }

  // ------------------------------------------------------ the navigation

  lemma {:induction false} ListedSomewhere(navigation: seq<seq<Key>>, key: Key)
    ensures key in Listed(navigation) <==> exists h: nat :: h < |navigation| && key in navigation[h]
  {
    if navigation != [] {
      var init := navigation[..|navigation| - 1];
      ListedSomewhere(init, key);
      forall h: nat | h < |init| ensures init[h] == navigation[h] {}
    }
  }

  lemma EntryMeans(definition: Definition, g: nat, n: nat, p: Problem)
    requires g < |definition.navigation| && n < |definition.navigation[g]|
    ensures var group := definition.navigation[g];
            var seen, at := Listed(definition.navigation[..g]), At([], "navigation", g);
            p in Entering(FirstResources(definition.resources), seen, group, at)(group[n], n) <==>
            DeservedByEntry(definition, g, n, p)
  {
    var key := definition.navigation[g][n];
    FirstResourceIsNamed(definition.resources, key);
    ListedSomewhere(definition.navigation[..g], key);
    assert (exists h: nat :: h < g && key in definition.navigation[..g][h]) <==>
           exists h :: 0 <= h < g && key in definition.navigation[h];
    assert At(At([], "navigation", g), "resources", n) == [Name("navigation"), Index(g), Name("resources"), Index(n)];
    hide FirstResources, ResourceNamed, Listed;
  }

  lemma {:induction false} GroupsMean(definition: Definition, n: nat, p: Problem)
    requires n <= |definition.navigation|
    ensures p in GroupsProblems(definition.navigation[..n], FirstResources(definition.resources)) <==>
            exists g: nat, k: nat :: g < n && DeservedByEntry(definition, g, k, p)
  {
    if n > 0 {
      var g := n - 1;
      GroupsMean(definition, g, p);
      var init, group := definition.navigation[..g], definition.navigation[g];
      assert definition.navigation[..n][..g] == init;
      var rule := Entering(FirstResources(definition.resources), Listed(init), group, At([], "navigation", g));
      ReportedOfSome(group, rule, |group|, p);
      forall k: nat | k < |group| ensures p in rule(group[k], k) <==> DeservedByEntry(definition, g, k, p) {
        EntryMeans(definition, g, k, p);
      }
      hide Reported, Entering, FirstResources, Listed;
    }
  }

  lemma UnlistedStand(definition: Definition, p: Problem)
    ensures var all := definition.resources;
            p in Reported(all, Unlisting(all, Listed(definition.navigation)), |all|) <==>
            exists i: nat :: i < |all| && Stands(definition, i, Own(Itself), p)
  {
    var all := definition.resources;
    var rule := Unlisting(all, Listed(definition.navigation));
    ReportedOfSome(all, rule, |all|, p);
    forall i: nat | i < |all| ensures p in rule(all[i], i) <==> Stands(definition, i, Own(Itself), p) {
      var keys := ResourceKeys(all);
      ListedSomewhere(definition.navigation, all[i].key);
      assert keys[i] in keys[..i] <==> ClaimedBefore(keys, i);
      assert At([], "resources", i) == Of(i) + PathOf(Own(Itself));
      hide Listed;
    }
    hide Reported, Unlisting, Stands;
  }

  lemma DuplicateResourcesStand(definition: Definition, p: Problem)
    ensures p in Duplicates(ResourceKeys(definition.resources), [], "resources") <==>
            exists i: nat :: i < |definition.resources| && Stands(definition, i, Own(ItsKey), p)
  {
    hide Reported, Claimed, NamesBadly, LabelsBadly, ReadsOnlyBadly, FieldNamed;
    var keys := ResourceKeys(definition.resources);
    var rule := Claimed(keys, [], "resources");
    ReportedOfSome(keys, rule, |keys|, p);
    forall i: nat | i < |keys| ensures p in rule(keys[i], i) <==> Stands(definition, i, Own(ItsKey), p) {
      hide ClaimedBefore;
      ClaimMeans(keys, [], "resources", i, p);
      assert [] + ([Name("resources"), Index(i)] + [Name("key")]) == Of(i) + PathOf(Own(ItsKey));
    }
    hide Reported, Claimed, Stands;
  }

  // ------------------------------------------------------------- the pass

  lemma ResourcesStand(definition: Definition, p: Problem)
    ensures var all := definition.resources;
            p in Reported(all, Resourced(FirstResources(all)), |all|) <==>
            exists i: nat :: StandsWithin(definition, i, p)
  {
    var all := definition.resources;
    hide Reported, FirstResources, Stands, ResourceProblems;
    var rule := Resourced(FirstResources(all));
    ReportedOfSome(all, rule, |all|, p);
    forall i: nat ensures i < |all| && p in rule(all[i], i) <==> StandsWithin(definition, i, p) {
      if i < |all| {
        ResourceStands(definition, i, p);
        assert At([], "resources", i) == Of(i);
      }
      hide ResourceProblems, FirstResources, Stands;
    }
    hide Reported, Resourced, FirstResources, StandsWithin;
  }

  lemma StandsSomewhere(definition: Definition, i: nat, p: Problem)
    ensures DeservedBy(definition, i, p) <==>
            i < |definition.resources| &&
            (|| Stands(definition, i, Own(Itself), p)
             || Stands(definition, i, Own(ItsKey), p)
             || StandsWithin(definition, i, p))
  {
    hide Stands;
  }

  lemma PassIs(definition: Definition, p: Problem)
    ensures var all, listed, resources :=
              definition.resources, Listed(definition.navigation), FirstResources(definition.resources);
            p in ReferenceErrors(definition) <==>
            || p in Duplicates(ResourceKeys(all), [], "resources")
            || p in GroupsProblems(definition.navigation, resources)
            || p in Reported(all, Unlisting(all, listed), |all|)
            || p in Reported(all, Resourced(resources), |all|)
  {
    hide Duplicates, GroupsProblems, Reported, Unlisting, Resourced, FirstResources, Listed;
  }

  /** The pass reports a problem exactly when the value written at its path is
      what its flaw says of it. */
  lemma ReportedExactlyWhenDeserved(definition: Definition, p: Problem)
    ensures p in ReferenceErrors(definition) <==> Deserved(definition, p)
  {
    hide ReferenceErrors, Stands, DeservedBy, Duplicates, GroupsProblems, Reported, FirstResources, Listed;
    DuplicateResourcesStand(definition, p);
    GroupsMean(definition, |definition.navigation|, p);
    assert definition.navigation[..|definition.navigation|] == definition.navigation;
    UnlistedStand(definition, p);
    ResourcesStand(definition, p);
    PassIs(definition, p);
    forall i: nat
      ensures DeservedBy(definition, i, p) <==>
              i < |definition.resources| &&
              (|| Stands(definition, i, Own(Itself), p)
               || Stands(definition, i, Own(ItsKey), p)
               || StandsWithin(definition, i, p))
    {
      StandsSomewhere(definition, i, p);
    }
  }

  // ------------------------------------------------ one path, one place

  lemma OwnPathsDiffer(a: OwnSite, b: OwnSite)
    requires OwnPath(a) == OwnPath(b)
    ensures a == b
  {
    if a != Itself && b != Itself {
      assert OwnPath(a)[0] == OwnPath(b)[0];
    }
  }

  lemma FieldPathsDiffer(a: FieldSite, b: FieldSite)
    requires FieldPath(a) == FieldPath(b)
    ensures a == b
  {
    assert FieldPath(a)[0] == FieldPath(b)[0];
    if a.FieldTone? && b.FieldTone? {
      assert FieldPath(a)[1] == FieldPath(b)[1];
    }
  }

  lemma TablePathsDiffer(a: TableSite, b: TableSite)
    requires TableSitePath(a) == TableSitePath(b)
    ensures a == b
  {
    var x, y := TableSitePath(a), TableSitePath(b);
    assert x[0] == y[0] && x[1] == y[1];
    if |x| == 3 {
      assert x[2] == y[2];
    }
  }

  lemma DetailPathsDiffer(a: DetailSite, b: DetailSite)
    requires DetailSitePath(a) == DetailSitePath(b)
    ensures a == b
  {
    var x, y := DetailSitePath(a), DetailSitePath(b);
    if |x| > 1 {
      assert x[1] == y[1] && x[|x| - 1] == y[|y| - 1];
    }
  }

  lemma ActionPathsDiffer(a: ActionSite, b: ActionSite)
    requires ActionPath(a) == ActionPath(b)
    ensures a == b
  {
    var x, y := ActionPath(a), ActionPath(b);
    assert x[0] == y[0];
    if |x| == 2 {
      assert x[1] == y[1];
    }
  }

  lemma RelationshipPathsDiffer(a: RelationshipSite, b: RelationshipSite)
    requires RelationshipPath(a) == RelationshipPath(b)
    ensures a == b
  {
    assert RelationshipPath(a)[0] == RelationshipPath(b)[0];
  }

  /** The path of a place that is not its resource's own, below the list or the
      view it is in. */
  function Below(site: Site): Path {
    match site
    case Own(_) => []
    case OfField(_, field) => FieldPath(field)
    case OfRelationship(_, relationship) => RelationshipPath(relationship)
    case OfTable(table) => TableSitePath(table)
    case OfDetail(detail) => DetailSitePath(detail)
    case OfAction(_, action) => ActionPath(action)
  }

  lemma LastTwo(site: Site)
    requires !site.Own?
    ensures |PathOf(site)| > 2 && PathOf(site)[2..] == Below(site)
    ensures !site.OfTable? && !site.OfDetail? ==> PathOf(site)[1].Index?
  {
  }

  /** No two places of a resource share a path. */
  lemma SitesStandApart(a: Site, b: Site)
    requires PathOf(a) == PathOf(b)
    ensures a == b
  {
    if a.Own? || b.Own? {
      OwnIsShort(a);
      OwnIsShort(b);
      OwnPathsDiffer(a.own, b.own);
    } else {
      hide FieldPath, RelationshipPath, TableSitePath, DetailSitePath, ActionPath;
      LastTwo(a);
      LastTwo(b);
      assert PathOf(a)[0] == PathOf(b)[0] && PathOf(a)[1] == PathOf(b)[1];
      match a
      case OfField(_, field) => FieldPathsDiffer(field, b.ofField);
      case OfRelationship(_, relationship) => RelationshipPathsDiffer(relationship, b.ofRelationship);
      case OfTable(table) => TablePathsDiffer(table, b.ofTable);
      case OfDetail(detail) => DetailPathsDiffer(detail, b.ofDetail);
      case OfAction(_, action) => ActionPathsDiffer(action, b.ofAction);
    }
  }

  lemma OwnIsShort(site: Site)
    ensures site.Own? <==> |PathOf(site)| < 2
  {
  }

  /** Each place of a resource is told of at its own path, and of each flaw
      exactly when it has that flaw. */
  lemma EachPlaceIsToldOf(definition: Definition, i: nat, site: Site, flaw: Flaw)
    requires i < |definition.resources|
    ensures Problem(Of(i) + PathOf(site), flaw) in ReferenceErrors(definition) <==> Holds(definition, i, site, flaw)
  {
    var p := Problem(Of(i) + PathOf(site), flaw);
    ReportedExactlyWhenDeserved(definition, p);
    hide ReferenceErrors, Holds, PathOf, ResourceNamed;
    assert p.at[0] == Name("resources") && p.at[1] == Index(i) && p.at[2..] == PathOf(site);
    if Holds(definition, i, site, flaw) {
      assert Stands(definition, i, site, p);
      assert DeservedBy(definition, i, p);
    }
    forall k: nat, other | k < |definition.resources| && Stands(definition, k, other, p) ensures k == i && other == site {
      assert p.at[1] == Index(k) && p.at[2..] == PathOf(other);
      SitesStandApart(other, site);
    }
    forall g: nat, n: nat ensures !DeservedByEntry(definition, g, n, p) {
      assert Name("navigation") != Name("resources");
    }
  }
}
