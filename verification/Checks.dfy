/** The referential pass over a structurally valid definition
    (packages/contracts/src/definition/references.ts and the checks it calls). A problem is
    the path it is reported at and what kind it is. */
module Checks {
  import opened Outcomes
  import opened Definitions
  import opened Paths
  import opened ActionUrls
  import opened Validity

  datatype Flaw =
    | DuplicateKey
    | UnknownField
    | UnknownResource
    | SecretField
    | HiddenField
    | NotText
    | NotFilterable
    | WrongFilterKind
    | NotALabel
    | NoEditableField
    | RequiredNotEditable
    | EditableWithoutWrites
    | KeyIssuedByDatabase
    | NotWritable
    | GenerationWithoutCreate
    | ReadOnlyIsFalse
    | ReadOnlyWithWrites
    | NotAValueOfField
    | NotUpdatable
    | NotAValueToTone
    | TabsOfNothing
    | UnknownRelationship
    | NotOneCondition
    | NotComparable
    | WrongLiteral
    | ListedTwice
    | Unlisted

  datatype Problem = Problem(at: Path, flaw: Flaw)

  /** What one entry of a list is reported for, given where it stands. */
  type Rule<!T> = (T, nat) -> seq<Problem>

  function At(base: Path, name: string, index: nat): Path {
    base + [Name(name), Index(index)]
  }

  // ------------------------------------------------------------ whole lists

  /** What a rule reports of the first n entries, in order. */
  function Reported<T>(items: seq<T>, rule: Rule<T>, n: nat): seq<Problem>
    requires n <= |items|
  {
    if n == 0 then [] else Reported(items, rule, n - 1) + rule(items[n - 1], n - 1)
  }

  /** `items.forEach((item, index) => errors.push(...))` */
  method CheckEach<T>(items: seq<T>, rule: Rule<T>) returns (errors: seq<Problem>)
    ensures errors == Reported(items, rule, |items|)
  {
    errors := [];
    for i := 0 to |items|
      invariant errors == Reported(items, rule, i)
    {
      errors := errors + rule(items[i], i);
    }
  }

  lemma {:induction false} SilentWhenEachIs<T>(items: seq<T>, rule: Rule<T>, n: nat)
    requires n <= |items|
    ensures Reported(items, rule, n) == [] <==> forall i :: 0 <= i < n ==> rule(items[i], i) == []
  {
    if n > 0 {
      SilentWhenEachIs(items, rule, n - 1);
      BothSilent(Reported(items, rule, n - 1), rule(items[n - 1], n - 1));
    }
  }

  lemma BothSilent(a: seq<Problem>, b: seq<Problem>)
    ensures a + b == [] <==> a == [] && b == []
  {
    assert |a + b| == |a| + |b|;
  }

  // ------------------------------------------------------------- unique keys

  /** An entry is a duplicate when an earlier one claimed its key. */
  function Claimed(keys: seq<Key>, at: Path, list: string): Rule<Key> {
    (key: Key, i: nat) =>
      if i < |keys| && key in keys[..i] then [Problem(At(at, list, i) + [Name("key")], DuplicateKey)] else []
  }

  function Duplicates(keys: seq<Key>, at: Path, list: string): seq<Problem> {
    Reported(keys, Claimed(keys, at, list), |keys|)
  }

  method CheckUnique(keys: seq<Key>, at: Path, list: string) returns (errors: seq<Problem>)
    ensures errors == Duplicates(keys, at, list)
  {
    errors := [];
    var seen: set<Key> := {};
    for i := 0 to |keys|
      invariant forall k :: k in seen <==> k in keys[..i]
      invariant errors == Reported(keys, Claimed(keys, at, list), i)
    {
      if keys[i] in seen {
        errors := errors + [Problem(At(at, list, i) + [Name("key")], DuplicateKey)];
      } else {
        seen := seen + {keys[i]};
      }
    }
  }

  lemma UniqueKeys(keys: seq<Key>, at: Path, list: string)
    ensures Duplicates(keys, at, list) == [] <==> DistinctKeys(keys)
  {
    var rule := Claimed(keys, at, list);
    SilentWhenEachIs(keys, rule, |keys|);
    if DistinctKeys(keys) {
      forall i | 0 <= i < |keys| ensures rule(keys[i], i) == [] {}
    } else {
      var i, j :| 0 <= i < j < |keys| && keys[i] == keys[j];
      assert keys[i] in keys[..j];
      assert rule(keys[j], j) != [];
    }
  }

  function FieldKeys(fields: seq<Field>): (keys: seq<Key>)
    ensures |keys| == |fields|
    ensures forall i :: 0 <= i < |keys| ==> keys[i] == fields[i].key
  {
    seq(|fields|, i requires 0 <= i < |fields| => fields[i].key)
  }

  function ResourceKeys(resources: seq<Resource>): (keys: seq<Key>)
    ensures |keys| == |resources|
    ensures forall i :: 0 <= i < |keys| ==> keys[i] == resources[i].key
  {
    seq(|resources|, i requires 0 <= i < |resources| => resources[i].key)
  }

  /** The checker keeps the first field to claim a key, and drops the rest. */
  function FirstFields(fields: seq<Field>): Fields {
    if fields == [] then map[]
    else
      var init, last := FirstFields(fields[..|fields| - 1]), fields[|fields| - 1];
      if last.key in init then init else init[last.key := last]
  }

  function FirstResources(resources: seq<Resource>): map<Key, Resource> {
    if resources == [] then map[]
    else
      var init, last := FirstResources(resources[..|resources| - 1]), resources[|resources| - 1];
      if last.key in init then init else init[last.key := last]
  }

  method EnterFields(fields: seq<Field>) returns (entered: Fields)
    ensures entered == FirstFields(fields)
  {
    entered := map[];
    for i := 0 to |fields|
      invariant entered == FirstFields(fields[..i])
    {
      assert fields[..i + 1][..i] == fields[..i];
      if fields[i].key in entered { continue; }
      entered := entered[fields[i].key := fields[i]];
    }
    assert fields[..|fields|] == fields;
  }

  method EnterResources(resources: seq<Resource>) returns (entered: map<Key, Resource>)
    ensures entered == FirstResources(resources)
  {
    entered := map[];
    for i := 0 to |resources|
      invariant entered == FirstResources(resources[..i])
    {
      assert resources[..i + 1][..i] == resources[..i];
      if resources[i].key in entered { continue; }
      entered := entered[resources[i].key := resources[i]];
    }
    assert resources[..|resources|] == resources;
  }

  lemma {:induction false} FirstIsOnlyField(fields: seq<Field>)
    requires DistinctFields(fields)
    ensures FirstFields(fields) == IndexFields(fields)
  {
    if fields != [] {
      var init := fields[..|fields| - 1];
      FirstIsOnlyField(init);
      FieldsIndexed(init);
    }
  }

  lemma {:induction false} FirstIsOnlyResource(resources: seq<Resource>)
    requires DistinctResources(resources)
    ensures FirstResources(resources) == IndexResources(resources)
  {
    if resources != [] {
      var init := resources[..|resources| - 1];
      FirstIsOnlyResource(init);
      ResourcesIndexed(init);
    }
  }

  lemma FieldKeysDiffer(fields: seq<Field>)
    ensures DistinctKeys(FieldKeys(fields)) <==> DistinctFields(fields)
  {
    var keys := FieldKeys(fields);
    if DistinctKeys(keys) {
      forall i, j | 0 <= i < j < |fields| ensures fields[i].key != fields[j].key {
        assert keys[i] != keys[j];
      }
    }
  }

  lemma ResourceKeysDiffer(resources: seq<Resource>)
    ensures DistinctKeys(ResourceKeys(resources)) <==> DistinctResources(resources)
  {
    var keys := ResourceKeys(resources);
    if DistinctKeys(keys) {
      forall i, j | 0 <= i < j < |resources| ensures resources[i].key != resources[j].key {
        assert keys[i] != keys[j];
      }
    }
  }

  // ------------------------------------------- what a resource says of itself

  /** resource-checks.ts:96-116 */
  function KeyProblems(r: Resource, at: Path, fields: Fields): seq<Problem> {
    if r.primaryKey !in fields then [Problem(at + [Name("primaryKey")], UnknownField)]
    else if fields[r.primaryKey].sensitive then [Problem(at + [Name("primaryKey")], SecretField)]
    else []
  }

  /** resource-checks.ts:124-175 */
  function LabelProblems(r: Resource, at: Path, fields: Fields): seq<Problem> {
    if r.labelField.None? then []
    else
      var path, key := at + [Name("labelField")], r.labelField.value;
      if key !in fields then [Problem(path, UnknownField)]
      else if fields[key].sensitive then [Problem(path, SecretField)]
      else if fields[key].hidden then [Problem(path, HiddenField)]
      else if fields[key].kind.IsLabellable() then []
      else [Problem(path, NotALabel)]
  }

  /** write-checks.ts:106-151 */
  function ReadOnlyProblems(r: Resource, at: Path): seq<Problem> {
    if r.readOnly == Some(false) then [Problem(at + [Name("readOnly")], ReadOnlyIsFalse)]
    else if r.readOnly == Some(true) && r.OffersWrites() then [Problem(at + [Name("readOnly")], ReadOnlyWithWrites)]
    else []
  }

  function GenerationProblems(r: Resource, at: Path): seq<Problem> {
    if r.generation.Some? && !r.creates
    then [Problem(at + [Name("primaryKeyGeneration")], GenerationWithoutCreate)] else []
  }

  function NothingEditable(r: Resource, at: Path): seq<Problem> {
    if r.OffersWrites() && !exists i :: 0 <= i < |r.fields| && r.fields[i].editable
    then [Problem(at + [Name("writes")], NoEditableField)] else []
  }

  /** write-checks.ts:41-95, for one field */
  function EditingProblems(r: Resource, field: Field, at: Path): seq<Problem> {
    var path := at + [Name("editable")];
    var idle :=
      if field.required && !field.editable then [Problem(at + [Name("required")], RequiredNotEditable)] else [];
    var unoffered := if field.editable && !r.OffersWrites() then [Problem(path, EditableWithoutWrites)] else [];
    var unfit :=
      if !field.editable then []
      else if field.sensitive then [Problem(path, SecretField)]
      else if field.key == r.primaryKey && r.KeysFrom() == Database then [Problem(path, KeyIssuedByDatabase)]
      else if !field.kind.IsWritable() then [Problem(path, NotWritable)]
      else [];
    idle + unoffered + unfit
  }

  function Editing(r: Resource, at: Path): Rule<Field> {
    (field: Field, i: nat) => EditingProblems(r, field, At(at, "fields", i))
  }

  /** The checker walks the fields it entered, which are the first of each key. */
  function OnlyFirst(fields: seq<Field>, rule: Rule<Field>): Rule<Field> {
    (field: Field, i: nat) => if i <= |fields| && field.key in FieldKeys(fields)[..i] then [] else rule(field, i)
  }

  method CheckEachFirst(fields: seq<Field>, rule: Rule<Field>) returns (errors: seq<Problem>)
    ensures errors == Reported(fields, OnlyFirst(fields, rule), |fields|)
  {
    errors := [];
    var walked: set<Key> := {};
    for i := 0 to |fields|
      invariant forall k :: k in walked <==> k in FieldKeys(fields)[..i]
      invariant errors == Reported(fields, OnlyFirst(fields, rule), i)
    {
      if fields[i].key !in walked {
        walked := walked + {fields[i].key};
        errors := errors + rule(fields[i], i);
      }
    }
  }

  function WriteProblems(r: Resource, at: Path): seq<Problem> {
    ReadOnlyProblems(r, at) + GenerationProblems(r, at) + NothingEditable(r, at)
    + Reported(r.fields, OnlyFirst(r.fields, Editing(r, at)), |r.fields|)
  }

  method CheckWrites(r: Resource, at: Path) returns (errors: seq<Problem>)
    ensures errors == WriteProblems(r, at)
  {
    var editing := CheckEachFirst(r.fields, Editing(r, at));
    errors := ReadOnlyProblems(r, at) + GenerationProblems(r, at) + NothingEditable(r, at) + editing;
  }

  // ------------------------------------------------ what it says of the others

  /** resource-checks.ts:68-77 */
  function Pointing(at: Path, resources: map<Key, Resource>): Rule<Field> {
    (field: Field, i: nat) =>
      if PointsSomewhere(field, resources) then []
      else [Problem(At(at, "fields", i) + [Name("target")], UnknownResource)]
  }

  /** resource-checks.ts:184-239 */
  function RelationshipProblems(x: Relationship, at: Path, r: Resource, resources: map<Key, Resource>): seq<Problem> {
    if x.target !in resources then [Problem(at + [Name("target")], UnknownResource)]
    else
      var owner := if x.kind == BelongsTo then r else resources[x.target];
      var foreignKey := FieldNamed(owner.fields, x.foreignKey);
      if foreignKey.None? then [Problem(at + [Name("foreignKey")], UnknownField)]
      else if foreignKey.value.sensitive then [Problem(at + [Name("foreignKey")], SecretField)]
      else []
  }

  function Relating(r: Resource, at: Path, resources: map<Key, Resource>): Rule<Relationship> {
    (x: Relationship, i: nat) => RelationshipProblems(x, At(at, "relationships", i), r, resources)
  }

  // ------------------------------------------------- what it offers an operator

  /** table-view-checks.ts:33-62, and the same three questions of a sort */
  function ListingProblems(key: Key, at: Path, fields: Fields): seq<Problem> {
    if key !in fields then [Problem(at, UnknownField)]
    else if fields[key].sensitive then [Problem(at, SecretField)]
    else if fields[key].hidden then [Problem(at, HiddenField)]
    else []
  }

  function Showing(at: Path, fields: Fields): Rule<Key> {
    (key: Key, i: nat) => ListingProblems(key, At(at, "columns", i), fields)
  }

  /** table-view-checks.ts:92-130 */
  function Searching(at: Path, fields: Fields): Rule<Key> {
    (key: Key, i: nat) =>
      var path := At(at, "search", i);
      if !Listable(fields, key) then ListingProblems(key, path, fields)
      else if !fields[key].kind.IsText() then [Problem(path, NotText)]
      else []
  }

  /** table-view-checks.ts:132-180 */
  function Filtering(at: Path, fields: Fields): Rule<Filter> {
    (filter: Filter, i: nat) =>
      var path := At(at, "filters", i);
      if !Listable(fields, filter.field) then ListingProblems(filter.field, path + [Name("field")], fields)
      else
        var supported := FilterFor(fields[filter.field].kind);
        if supported.None? then [Problem(path, NotFilterable)]
        else if supported.value != filter.kind then [Problem(path + [Name("kind")], WrongFilterKind)]
        else []
  }

  function SortPath(at: Path): Path {
    at + [Name("defaultSort"), Name("field")]
  }

  function TableProblems(view: TableView, at: Path, fields: Fields): seq<Problem> {
    Reported(view.columns, Showing(at, fields), |view.columns|)
    + ListingProblems(view.sortField, SortPath(at), fields)
    + Reported(view.search, Searching(at, fields), |view.search|)
    + Reported(view.filters, Filtering(at, fields), |view.filters|)
  }

  method CheckTableView(view: TableView, at: Path, fields: Fields) returns (errors: seq<Problem>)
    ensures errors == TableProblems(view, at, fields)
  {
    var columns := CheckEach(view.columns, Showing(at, fields));
    var search := CheckEach(view.search, Searching(at, fields));
    var filters := CheckEach(view.filters, Filtering(at, fields));
    errors := columns + ListingProblems(view.sortField, SortPath(at), fields) + search + filters;
  }

  // -------------------------------------------- what it says of how it is drawn

  /** tone-checks.ts:11-24 */
  function ToneProblems(field: Field, at: Path): seq<Problem> {
    match field.kind
    case Enum(values, tones) => Reported(tones, Toning(values, at), |tones|)
    case _ => []
  }

  function Toning(values: seq<string>, at: Path): Rule<string> {
    (tone: string, i: nat) =>
      if tone in values then [] else [Problem(at + [Name("tones"), Name(tone)], NotAValueToTone)]
  }

  function Tinting(at: Path): Rule<Field> {
    (field: Field, i: nat) => ToneProblems(field, At(at, "fields", i))
  }

  method CheckFieldTones(field: Field, at: Path) returns (errors: seq<Problem>)
    ensures errors == ToneProblems(field, at)
  {
    errors := [];
    if field.kind.Enum? {
      errors := CheckEach(field.kind.tones, Toning(field.kind.values, at));
    }
  }

  method CheckTones(r: Resource, at: Path) returns (errors: seq<Problem>)
    ensures errors == Reported(r.fields, Tinting(at), |r.fields|)
  {
    hide ToneProblems;
    errors := [];
    for i := 0 to |r.fields|
      invariant errors == Reported(r.fields, Tinting(at), i)
    {
      var problems := CheckFieldTones(r.fields[i], At(at, "fields", i));
      assert problems == Tinting(at)(r.fields[i], i);
      errors := errors + problems;
    }
  }

  function Sectioning(at: Path, fields: Fields): Rule<seq<Key>> {
    (section: seq<Key>, i: nat) => SectionProblems(section, At(at, "sections", i), fields)
  }

  function SectionProblems(section: seq<Key>, at: Path, fields: Fields): seq<Problem> {
    Reported(section, Placing(at, fields), |section|)
  }

  function Placing(at: Path, fields: Fields): Rule<Key> {
    (key: Key, i: nat) => if key in fields then [] else [Problem(At(at, "fields", i), UnknownField)]
  }

  function LayoutProblems(view: DetailView, at: Path): seq<Problem> {
    if view.tabs && view.relatedLists == [] then [Problem(at + [Name("relatedLayout")], TabsOfNothing)] else []
  }

  function Embedding(at: Path, relationships: seq<Key>): Rule<Key> {
    (key: Key, i: nat) =>
      if key in relationships then [] else [Problem(At(at, "relatedLists", i), UnknownRelationship)]
  }

  /** detail-view-checks.ts:10-60 */
  function DetailProblems(view: DetailView, at: Path, fields: Fields, relationships: seq<Key>): seq<Problem> {
    Reported(view.sections, Sectioning(at, fields), |view.sections|)
    + LayoutProblems(view, at)
    + Reported(view.relatedLists, Embedding(at, relationships), |view.relatedLists|)
  }

  method CheckSections(sections: seq<seq<Key>>, at: Path, fields: Fields) returns (errors: seq<Problem>)
    ensures errors == Reported(sections, Sectioning(at, fields), |sections|)
  {
    hide SectionProblems;
    errors := [];
    for i := 0 to |sections|
      invariant errors == Reported(sections, Sectioning(at, fields), i)
    {
      var problems := CheckSection(sections[i], At(at, "sections", i), fields);
      assert problems == Sectioning(at, fields)(sections[i], i);
      errors := errors + problems;
    }
  }

  method CheckSection(section: seq<Key>, at: Path, fields: Fields) returns (errors: seq<Problem>)
    ensures errors == SectionProblems(section, at, fields)
  {
    errors := CheckEach(section, Placing(at, fields));
  }

  method CheckDetailView(view: DetailView, at: Path, fields: Fields, relationships: seq<Key>) returns (errors: seq<Problem>)
    ensures errors == DetailProblems(view, at, fields, relationships)
  {
    hide Reported, Sectioning, Embedding;
    errors := CheckSections(view.sections, at, fields);
    if view.tabs && view.relatedLists == [] {
      errors := errors + [Problem(at + [Name("relatedLayout")], TabsOfNothing)];
    }
    var embedded := CheckEach(view.relatedLists, Embedding(at, relationships));
    errors := errors + embedded;
  }

  // -------------------------------------------------------- what it may be asked

  /** action-checks.ts:38-57; `new Set` asks about each placeholder once. */
  function Interpolating(holes: seq<string>, at: Path, fields: Fields): Rule<string> {
    (hole: string, i: nat) =>
      if i <= |holes| && hole in holes[..i] then []
      else if hole !in fields then [Problem(at + [Name("url")], UnknownField)]
      else if fields[hole].sensitive then [Problem(at + [Name("url")], SecretField)]
      else []
  }

  method CheckUrl(holes: seq<string>, at: Path, fields: Fields) returns (errors: seq<Problem>)
    ensures errors == Reported(holes, Interpolating(holes, at, fields), |holes|)
  {
    errors := [];
    var asked: set<string> := {};
    for i := 0 to |holes|
      invariant forall h :: h in asked <==> h in holes[..i]
      invariant errors == Reported(holes, Interpolating(holes, at, fields), i)
    {
      var hole := holes[i];
      if hole !in asked {
        asked := asked + {hole};
        if hole !in fields {
          errors := errors + [Problem(at + [Name("url")], UnknownField)];
        } else if fields[hole].sensitive {
          errors := errors + [Problem(at + [Name("url")], SecretField)];
        }
      }
    }
  }

  /** action-checks.ts:69-117 */
  function UpdateProblems(key: Key, value: Value, at: Path, fields: Fields): seq<Problem> {
    if key !in fields then [Problem(at + [Name("field")], UnknownField)]
    else if fields[key].sensitive then [Problem(at + [Name("field")], SecretField)]
    else
      match fields[key].kind
      case Enum(values, _) =>
        if value.Text? && value.text in values then [] else [Problem(at + [Name("value")], NotAValueOfField)]
      case Boolean =>
        if value.Bool? then [] else [Problem(at + [Name("value")], NotAValueOfField)]
      case _ => [Problem(at + [Name("field")], NotUpdatable)]
  }

  /** visibility-checks.ts:57-105 */
  function ConditionProblems(when: VisibleWhen, at: Path, fields: Fields): seq<Problem> {
    if when.field !in fields then [Problem(at + [Name("field")], UnknownField)]
    else if fields[when.field].sensitive then [Problem(at + [Name("field")], SecretField)]
    else if when.equals.Some? == when.isSet then [Problem(at, NotOneCondition)]
    else if when.isSet then []
    else
      var literal := LiteralFor(fields[when.field].kind);
      if literal.None? then [Problem(at + [Name("field")], NotComparable)]
      else
        match fields[when.field].kind
        case Enum(values, _) =>
          if when.equals.value.Text? && when.equals.value.text in values then []
          else [Problem(at + [Name("equals")], NotAValueOfField)]
        case _ =>
          if IsLiteral(literal.value, when.equals.value) then [] else [Problem(at + [Name("equals")], WrongLiteral)]
  }

  function OfferedWhenProblems(action: Action, at: Path, fields: Fields): seq<Problem> {
    if action.visibleWhen.None? then []
    else ConditionProblems(action.visibleWhen.value, at + [Name("visibleWhen")], fields)
  }

  function WorkProblems(action: Action, at: Path, fields: Fields): seq<Problem> {
    match action
    case DbUpdate(_, key, value, _) => UpdateProblems(key, value, at, fields)
    case HttpCall(_, url, _) =>
      var holes := Holes(Pieces(url));
      Reported(holes, Interpolating(holes, at, fields), |holes|)
  }

  function ActionProblems(action: Action, at: Path, fields: Fields): seq<Problem> {
    OfferedWhenProblems(action, at, fields) + WorkProblems(action, at, fields)
  }

  function Acting(at: Path, fields: Fields): Rule<Action> {
    (action: Action, i: nat) => ActionProblems(action, At(at, "actions", i), fields)
  }

  method CheckAction(action: Action, at: Path, fields: Fields) returns (errors: seq<Problem>)
    ensures errors == ActionProblems(action, at, fields)
  {
    hide Pieces, Holes, Interpolating, Reported;
    errors := OfferedWhenProblems(action, at, fields);
    var problems: seq<Problem>;
    if action.DbUpdate? {
      problems := UpdateProblems(action.field, action.value, at, fields);
    } else {
      problems := CheckUrl(Holes(Pieces(action.url)), at, fields);
    }
    errors := errors + problems;
  }

  method CheckActions(actions: seq<Action>, at: Path, fields: Fields) returns (errors: seq<Problem>)
    ensures errors == Reported(actions, Acting(at, fields), |actions|)
  {
    hide ActionProblems;
    errors := [];
    for i := 0 to |actions|
      invariant errors == Reported(actions, Acting(at, fields), i)
    {
      var problems := CheckAction(actions[i], At(at, "actions", i), fields);
      assert problems == Acting(at, fields)(actions[i], i);
      errors := errors + problems;
    }
  }

  // ------------------------------------------------------------ one resource

  function UniqueProblems(r: Resource, at: Path): seq<Problem> {
    Duplicates(FieldKeys(r.fields), at, "fields")
    + Duplicates(RelationshipKeys(r.relationships), at, "relationships")
    + Duplicates(ActionKeys(r.actions), at, "actions")
  }

  function OwnProblems(r: Resource, at: Path, fields: Fields): seq<Problem> {
    KeyProblems(r, at, fields) + LabelProblems(r, at, fields) + WriteProblems(r, at)
  }

  function ReferenceProblems(r: Resource, at: Path, resources: map<Key, Resource>): seq<Problem> {
    Reported(r.fields, Pointing(at, resources), |r.fields|)
    + Reported(r.relationships, Relating(r, at, resources), |r.relationships|)
  }

  function TablePath(at: Path): Path {
    at + [Name("views"), Name("table")]
  }

  function DetailPath(at: Path): Path {
    at + [Name("views"), Name("detail")]
  }

  function DrawnProblems(r: Resource, at: Path, fields: Fields): seq<Problem> {
    Reported(r.fields, Tinting(at), |r.fields|)
    + TableProblems(r.view, TablePath(at), fields)
    + DetailProblems(r.detail, DetailPath(at), fields, RelationshipKeys(r.relationships))
  }

  function OfferProblems(r: Resource, at: Path, fields: Fields): seq<Problem> {
    DrawnProblems(r, at, fields) + Reported(r.actions, Acting(at, fields), |r.actions|)
  }

  function ResourceProblems(r: Resource, at: Path, resources: map<Key, Resource>): seq<Problem> {
    var fields := FirstFields(r.fields);
    UniqueProblems(r, at) + OwnProblems(r, at, fields) + ReferenceProblems(r, at, resources) + OfferProblems(r, at, fields)
  }

  method CheckResource(r: Resource, at: Path, resources: map<Key, Resource>) returns (errors: seq<Problem>)
    ensures errors == ResourceProblems(r, at, resources)
  {
    var fields := EnterFields(r.fields);
    var duplicateFields := CheckUnique(FieldKeys(r.fields), at, "fields");
    var duplicateRelationships := CheckUnique(RelationshipKeys(r.relationships), at, "relationships");
    var duplicateActions := CheckUnique(ActionKeys(r.actions), at, "actions");
    errors := duplicateFields + duplicateRelationships + duplicateActions;

    var writes := CheckWrites(r, at);
    errors := errors + (KeyProblems(r, at, fields) + LabelProblems(r, at, fields) + writes);
    var targets := CheckEach(r.fields, Pointing(at, resources));
    var relationships := CheckEach(r.relationships, Relating(r, at, resources));
    errors := errors + (targets + relationships);
    var tones := CheckTones(r, at);
    var table := CheckTableView(r.view, TablePath(at), fields);
    var detail := CheckDetailView(r.detail, DetailPath(at), fields, RelationshipKeys(r.relationships));
    var actions := CheckActions(r.actions, at, fields);
    errors := errors + (tones + table + detail + actions);
  }
}
