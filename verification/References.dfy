/** The whole referential pass, and what its silence is worth
    (packages/contracts/src/definition/references.ts, navigation-checks.ts). */
module References {
  import opened Definitions
  import opened Paths
  import opened ActionUrls
  import opened Validity
  import opened Checks

  // -------------------------------------------------------------- navigation

  /** An entry names a resource, and is the first to: `seen` is every key the
      earlier groups listed, `group` the group this entry stands in. */
  function Entering(resources: map<Key, Resource>, seen: seq<Key>, group: seq<Key>, at: Path): Rule<Key> {
    (key: Key, i: nat) =>
      if key !in resources then [Problem(At(at, "resources", i), UnknownResource)]
      else if key in seen || (i <= |group| && key in group[..i]) then [Problem(At(at, "resources", i), ListedTwice)]
      else []
  }

  function GroupProblems(
    resources: map<Key, Resource>, seen: seq<Key>, group: seq<Key>, index: nat): seq<Problem>
  {
    Reported(group, Entering(resources, seen, group, At([], "navigation", index)), |group|)
  }

  function GroupsProblems(navigation: seq<seq<Key>>, resources: map<Key, Resource>): seq<Problem> {
    if navigation == [] then []
    else
      var init := navigation[..|navigation| - 1];
      GroupsProblems(init, resources)
      + GroupProblems(resources, Listed(init), navigation[|navigation| - 1], |init|)
  }

  /** A resource nothing lists; of two that claim one key only the first is asked. */
  function Unlisting(all: seq<Resource>, listed: seq<Key>): Rule<Resource> {
    (r: Resource, i: nat) =>
      if r.key in listed || (i <= |all| && r.key in ResourceKeys(all)[..i]) then []
      else [Problem(At([], "resources", i), Unlisted)]
  }

  function NavigationProblems(definition: Definition, resources: map<Key, Resource>): seq<Problem> {
    GroupsProblems(definition.navigation, resources)
    + Reported(definition.resources, Unlisting(definition.resources, Listed(definition.navigation)), |definition.resources|)
  }

  method CheckGroup(resources: map<Key, Resource>, ghost seen: seq<Key>, listed: set<Key>, group: seq<Key>, index: nat)
    returns (listed': set<Key>, errors: seq<Problem>)
    requires forall k :: k in listed <==> k in seen && k in resources
    ensures forall k :: k in listed' <==> k in seen + group && k in resources
    ensures errors == GroupProblems(resources, seen, group, index)
  {
    listed', errors := listed, [];
    var at := At([], "navigation", index);
    for i := 0 to |group|
      invariant forall k :: k in listed' <==> (k in seen || k in group[..i]) && k in resources
      invariant errors == Reported(group, Entering(resources, seen, group, at), i)
    {
      var path := At(at, "resources", i);
      if group[i] !in resources {
        errors := errors + [Problem(path, UnknownResource)];
      } else if group[i] !in listed' {
        listed' := listed' + {group[i]};
      } else {
        errors := errors + [Problem(path, ListedTwice)];
      }
    }
    assert group[..|group|] == group;
  }

  method CheckNavigation(definition: Definition, resources: map<Key, Resource>) returns (errors: seq<Problem>)
    requires resources == FirstResources(definition.resources)
    ensures errors == NavigationProblems(definition, resources)
  {
    hide GroupProblems;
    errors := [];
    var navigation := definition.navigation;
    var listed: set<Key> := {};
    for g := 0 to |navigation|
      invariant forall k :: k in listed <==> k in Listed(navigation[..g]) && k in resources
      invariant errors == GroupsProblems(navigation[..g], resources)
    {
      assert navigation[..g + 1][..g] == navigation[..g];
      var problems;
      listed, problems := CheckGroup(resources, Listed(navigation[..g]), listed, navigation[g], g);
      errors := errors + problems;
    }
    assert navigation[..|navigation|] == navigation;

    var unlisted := CheckUnlisted(definition.resources, Listed(navigation), listed, resources);
    errors := errors + unlisted;
  }

  method CheckUnlisted(all: seq<Resource>, ghost entries: seq<Key>, listed: set<Key>, resources: map<Key, Resource>)
    returns (errors: seq<Problem>)
    requires resources == FirstResources(all)
    requires forall k :: k in listed <==> k in entries && k in resources
    ensures errors == Reported(all, Unlisting(all, entries), |all|)
  {
    hide FirstResources, DistinctKeys, Listed;
    FirstResourcesHasEach(all);
    var keys := ResourceKeys(all);
    errors := [];
    var walked: set<Key> := {};
    for i := 0 to |all|
      invariant forall k :: k in walked <==> k in keys[..i]
      invariant errors == Reported(all, Unlisting(all, entries), i)
    {
      var key := keys[i];
      if key !in listed && key !in walked {
        errors := errors + [Problem(At([], "resources", i), Unlisted)];
      }
      walked := walked + {key};
    }
  }

  lemma {:induction false} FirstResourcesHasEach(resources: seq<Resource>)
    ensures forall k :: k in FirstResources(resources) <==> k in ResourceKeys(resources)
  {
    if resources != [] {
      var init := resources[..|resources| - 1];
      FirstResourcesHasEach(init);
      assert ResourceKeys(resources) == ResourceKeys(init) + [resources[|resources| - 1].key];
    }
  }

  lemma SilentGroupIsSound(resources: map<Key, Resource>, seen: seq<Key>, group: seq<Key>, at: Path)
    requires DistinctKeys(seen)
    requires var rule := Entering(resources, seen, group, at);
             forall i :: 0 <= i < |group| ==> rule(group[i], i) == []
    ensures DistinctKeys(seen + group)
    ensures forall k :: k in group ==> k in resources
  {
    var rule := Entering(resources, seen, group, at);
    forall i, j | 0 <= i < |group| && 0 <= j < |seen| ensures seen[j] != group[i] {
      assert rule(group[i], i) == [];
    }
    forall i, j | 0 <= i < j < |group| ensures group[i] != group[j] {
      assert rule(group[j], j) == [];
      assert group[i] in group[..j];
    }
    forall k | k in group ensures k in resources {
      var i :| 0 <= i < |group| && group[i] == k;
      assert rule(group[i], i) == [];
    }
  }

  lemma SoundGroupIsSilent(resources: map<Key, Resource>, seen: seq<Key>, group: seq<Key>, at: Path, i: nat)
    requires DistinctKeys(seen + group) && i < |group| && group[i] in resources
    ensures Entering(resources, seen, group, at)(group[i], i) == []
  {
    var all := seen + group;
    assert all[|seen| + i] == group[i];
    assert forall j :: 0 <= j < |seen| ==> all[j] == seen[j];
    assert forall j :: 0 <= j < i ==> all[|seen| + j] == group[j];
  }

  lemma SoundGroup(resources: map<Key, Resource>, seen: seq<Key>, group: seq<Key>, index: nat)
    requires DistinctKeys(seen)
    ensures GroupProblems(resources, seen, group, index) == [] <==>
            DistinctKeys(seen + group) && forall k :: k in group ==> k in resources
  {
    hide DistinctKeys;
    var at := At([], "navigation", index);
    var rule := Entering(resources, seen, group, at);
    SilentWhenEachIs(group, rule, |group|);
    if DistinctKeys(seen + group) && forall k :: k in group ==> k in resources {
      forall i | 0 <= i < |group| ensures rule(group[i], i) == [] {
        SoundGroupIsSilent(resources, seen, group, at, i);
      }
    }
    if forall i :: 0 <= i < |group| ==> rule(group[i], i) == [] {
      SilentGroupIsSound(resources, seen, group, at);
    }
  }

  lemma {:induction false} SoundGroups(navigation: seq<seq<Key>>, resources: map<Key, Resource>)
    ensures GroupsProblems(navigation, resources) == [] <==>
            DistinctKeys(Listed(navigation)) && forall k :: k in Listed(navigation) ==> k in resources
  {
    if navigation != [] {
      var init, last := navigation[..|navigation| - 1], navigation[|navigation| - 1];
      SoundGroups(init, resources);
      BothSilent(GroupsProblems(init, resources), GroupProblems(resources, Listed(init), last, |init|));
      if DistinctKeys(Listed(init)) {
        SoundGroup(resources, Listed(init), last, |init|);
      } else {
        var i, j :| 0 <= i < j < |Listed(init)| && Listed(init)[i] == Listed(init)[j];
        assert Listed(navigation)[i] == Listed(navigation)[j];
      }
    }
  }

  /** Navigation reports nothing exactly when the groups list each resource once. */
  lemma NavigationIsABijection(definition: Definition)
    requires DistinctResources(definition.resources)
    ensures NavigationProblems(definition, FirstResources(definition.resources)) == [] <==> NavigationMatches(definition)
  {
    var all := definition.resources;
    var resources, listed := FirstResources(all), Listed(definition.navigation);
    var rule := Unlisting(all, listed);
    FirstIsOnlyResource(all);
    ResourcesIndexed(all);
    SoundGroups(definition.navigation, resources);
    SilentWhenEachIs(all, rule, |all|);
    BothSilent(GroupsProblems(definition.navigation, resources), Reported(all, rule, |all|));
    forall i | 0 <= i < |all| ensures rule(all[i], i) == [] <==> all[i].key in listed {
      assert all[i].key !in ResourceKeys(all)[..i];
    }
    if forall i :: 0 <= i < |all| ==> rule(all[i], i) == [] {
      forall k | k in resources ensures k in listed {
        var i :| 0 <= i < |all| && all[i] == resources[k];
        assert rule(all[i], i) == [];
      }
    }
    if forall k :: k in resources ==> k in listed {
      forall i | 0 <= i < |all| ensures rule(all[i], i) == [] {
        assert all[i] in all;
      }
    }
  }

  // --------------------------------------------------------------- the pass

  function Resourced(resources: map<Key, Resource>): Rule<Resource> {
    (r: Resource, i: nat) => ResourceProblems(r, At([], "resources", i), resources)
  }

  function ReferenceErrors(definition: Definition): seq<Problem> {
    var resources := FirstResources(definition.resources);
    Duplicates(ResourceKeys(definition.resources), [], "resources")
    + NavigationProblems(definition, resources)
    + Reported(definition.resources, Resourced(resources), |definition.resources|)
  }

  method CheckReferences(definition: Definition) returns (errors: seq<Problem>)
    ensures errors == ReferenceErrors(definition)
  {
    hide ResourceProblems, NavigationProblems;
    var resources := EnterResources(definition.resources);
    errors := CheckUnique(ResourceKeys(definition.resources), [], "resources");
    var navigation := CheckNavigation(definition, resources);
    errors := errors + navigation;
    ghost var before := errors;
    for i := 0 to |definition.resources|
      invariant errors == before + Reported(definition.resources, Resourced(resources), i)
    {
      var problems := CheckResource(definition.resources[i], At([], "resources", i), resources);
      errors := errors + problems;
    }
  }

  // ------------------------------------------------------------- soundness

  lemma SoundWrites(r: Resource, at: Path)
    requires DistinctFields(r.fields)
    ensures WriteProblems(r, at) == [] <==>
            ValidDeclarations(r) && forall i :: 0 <= i < |r.fields| ==> ValidEditing(r, r.fields[i])
  {
    var rule := OnlyFirst(r.fields, Editing(r, at));
    SilentWhenEachIs(r.fields, rule, |r.fields|);
    forall i | 0 <= i < |r.fields| ensures rule(r.fields[i], i) == [] <==> ValidEditing(r, r.fields[i]) {
      assert r.fields[i].key !in FieldKeys(r.fields)[..i];
      SoundEditing(r, r.fields[i], At(at, "fields", i));
    }
    var a, b, c := ReadOnlyProblems(r, at), GenerationProblems(r, at), NothingEditable(r, at);
    BothSilent(a + b + c, Reported(r.fields, rule, |r.fields|));
    BothSilent(a + b, c);
    BothSilent(a, b);
  }

  lemma SoundEditing(r: Resource, field: Field, at: Path)
    ensures EditingProblems(r, field, at) == [] <==> ValidEditing(r, field)
  {
  }

  lemma SoundOwn(r: Resource, at: Path, fields: Fields)
    requires DistinctFields(r.fields)
    ensures OwnProblems(r, at, fields) == [] <==>
            && ValidKey(r, fields) && ValidLabel(r, fields) && ValidDeclarations(r)
            && forall i :: 0 <= i < |r.fields| ==> ValidEditing(r, r.fields[i])
  {
    SoundWrites(r, at);
    BothSilent(KeyProblems(r, at, fields) + LabelProblems(r, at, fields), WriteProblems(r, at));
    BothSilent(KeyProblems(r, at, fields), LabelProblems(r, at, fields));
  }

  lemma SoundUnique(r: Resource, at: Path)
    ensures UniqueProblems(r, at) == [] <==>
            DistinctFields(r.fields) && DistinctKeys(RelationshipKeys(r.relationships)) && DistinctKeys(ActionKeys(r.actions))
  {
    var a := Duplicates(FieldKeys(r.fields), at, "fields");
    var b := Duplicates(RelationshipKeys(r.relationships), at, "relationships");
    var c := Duplicates(ActionKeys(r.actions), at, "actions");
    UniqueKeys(FieldKeys(r.fields), at, "fields");
    FieldKeysDiffer(r.fields);
    UniqueKeys(RelationshipKeys(r.relationships), at, "relationships");
    UniqueKeys(ActionKeys(r.actions), at, "actions");
    BothSilent(a + b, c);
    BothSilent(a, b);
  }

  lemma SoundReferences(r: Resource, at: Path, resources: map<Key, Resource>)
    ensures ReferenceProblems(r, at, resources) == [] <==>
            && (forall i :: 0 <= i < |r.fields| ==> PointsSomewhere(r.fields[i], resources))
            && (forall i :: 0 <= i < |r.relationships| ==> ValidRelationship(r.relationships[i], r, resources))
  {
    hide RelationshipProblems, ValidRelationship;
    var pointing, relating := Pointing(at, resources), Relating(r, at, resources);
    SilentWhenEachIs(r.fields, pointing, |r.fields|);
    SilentWhenEachIs(r.relationships, relating, |r.relationships|);
    BothSilent(Reported(r.fields, pointing, |r.fields|), Reported(r.relationships, relating, |r.relationships|));
    forall i | 0 <= i < |r.fields|
      ensures pointing(r.fields[i], i) == [] <==> PointsSomewhere(r.fields[i], resources)
    {}
    forall i | 0 <= i < |r.relationships|
      ensures relating(r.relationships[i], i) == [] <==> ValidRelationship(r.relationships[i], r, resources)
    {
      SoundRelationship(r.relationships[i], At(at, "relationships", i), r, resources);
    }
  }

  lemma SoundRelationship(x: Relationship, at: Path, r: Resource, resources: map<Key, Resource>)
    ensures RelationshipProblems(x, at, r, resources) == [] <==> ValidRelationship(x, r, resources)
  {
    hide FieldNamed;
  }

  lemma SoundColumns(view: TableView, at: Path, fields: Fields)
    ensures Reported(view.columns, Showing(at, fields), |view.columns|) == [] <==>
            forall i :: 0 <= i < |view.columns| ==> Listable(fields, view.columns[i])
  {
    var showing := Showing(at, fields);
    SilentWhenEachIs(view.columns, showing, |view.columns|);
    forall i | 0 <= i < |view.columns|
      ensures showing(view.columns[i], i) == [] <==> Listable(fields, view.columns[i])
    {}
  }

  lemma SoundSearch(view: TableView, at: Path, fields: Fields)
    ensures Reported(view.search, Searching(at, fields), |view.search|) == [] <==>
            forall i :: 0 <= i < |view.search| ==> Searchable(fields, view.search[i])
  {
    var searching := Searching(at, fields);
    SilentWhenEachIs(view.search, searching, |view.search|);
    forall i | 0 <= i < |view.search|
      ensures searching(view.search[i], i) == [] <==> Searchable(fields, view.search[i])
    {}
  }

  lemma SoundFilters(view: TableView, at: Path, fields: Fields)
    ensures Reported(view.filters, Filtering(at, fields), |view.filters|) == [] <==>
            forall i :: 0 <= i < |view.filters| ==> Filterable(fields, view.filters[i])
  {
    var filtering := Filtering(at, fields);
    SilentWhenEachIs(view.filters, filtering, |view.filters|);
    forall i | 0 <= i < |view.filters|
      ensures filtering(view.filters[i], i) == [] <==> Filterable(fields, view.filters[i])
    {}
  }

  lemma SoundTable(view: TableView, at: Path, fields: Fields)
    ensures TableProblems(view, at, fields) == [] <==> ValidTable(view, fields)
  {
    hide Showing, Searching, Filtering, Reported, Searchable, Filterable;
    SoundColumns(view, at, fields);
    SoundSearch(view, at, fields);
    SoundFilters(view, at, fields);
    var columns := Reported(view.columns, Showing(at, fields), |view.columns|);
    var search := Reported(view.search, Searching(at, fields), |view.search|);
    var filters := Reported(view.filters, Filtering(at, fields), |view.filters|);
    var sort := ListingProblems(view.sortField, SortPath(at), fields);
    BothSilent(columns + sort + search, filters);
    BothSilent(columns + sort, search);
    BothSilent(columns, sort);
  }

  lemma SoundTones(r: Resource, at: Path)
    ensures Reported(r.fields, Tinting(at), |r.fields|) == [] <==>
            forall i :: 0 <= i < |r.fields| ==> ValidTones(r.fields[i])
  {
    var tinting := Tinting(at);
    SilentWhenEachIs(r.fields, tinting, |r.fields|);
    forall i | 0 <= i < |r.fields| ensures tinting(r.fields[i], i) == [] <==> ValidTones(r.fields[i]) {
      FieldTones(r.fields[i], At(at, "fields", i));
    }
  }

  lemma FieldTones(field: Field, at: Path)
    ensures ToneProblems(field, at) == [] <==> ValidTones(field)
  {
    if field.kind.Enum? {
      var values, tones := field.kind.values, field.kind.tones;
      var toning := Toning(values, at);
      SilentWhenEachIs(tones, toning, |tones|);
      forall i | 0 <= i < |tones| ensures toning(tones[i], i) == [] <==> tones[i] in values {}
    }
  }

  lemma SoundSections(view: DetailView, at: Path, fields: Fields)
    ensures Reported(view.sections, Sectioning(at, fields), |view.sections|) == [] <==>
            forall i :: 0 <= i < |view.sections| ==> ValidSection(view.sections[i], fields)
  {
    var sectioning := Sectioning(at, fields);
    SilentWhenEachIs(view.sections, sectioning, |view.sections|);
    forall i | 0 <= i < |view.sections|
      ensures sectioning(view.sections[i], i) == [] <==> ValidSection(view.sections[i], fields)
    {
      SoundSection(view.sections[i], At(at, "sections", i), fields);
    }
  }

  lemma SoundSection(section: seq<Key>, at: Path, fields: Fields)
    ensures SectionProblems(section, at, fields) == [] <==> ValidSection(section, fields)
  {
    var placing := Placing(at, fields);
    SilentWhenEachIs(section, placing, |section|);
    forall i | 0 <= i < |section| ensures placing(section[i], i) == [] <==> section[i] in fields {}
  }

  lemma SoundRelated(view: DetailView, at: Path, relationships: seq<Key>)
    ensures Reported(view.relatedLists, Embedding(at, relationships), |view.relatedLists|) == [] <==>
            forall i :: 0 <= i < |view.relatedLists| ==> view.relatedLists[i] in relationships
  {
    var embedding := Embedding(at, relationships);
    SilentWhenEachIs(view.relatedLists, embedding, |view.relatedLists|);
    forall i | 0 <= i < |view.relatedLists|
      ensures embedding(view.relatedLists[i], i) == [] <==> view.relatedLists[i] in relationships
    {}
  }

  lemma SoundDetail(view: DetailView, at: Path, fields: Fields, relationships: seq<Key>)
    ensures DetailProblems(view, at, fields, relationships) == [] <==> ValidDetail(view, fields, relationships)
  {
    SoundSections(view, at, fields);
    SoundRelated(view, at, relationships);
    var sections := Reported(view.sections, Sectioning(at, fields), |view.sections|);
    var related := Reported(view.relatedLists, Embedding(at, relationships), |view.relatedLists|);
    BothSilent(sections + LayoutProblems(view, at), related);
    BothSilent(sections, LayoutProblems(view, at));
    hide Reported, Sectioning, Embedding, ValidSection;
  }

  lemma SoundCondition(when: VisibleWhen, at: Path, fields: Fields)
    ensures ConditionProblems(when, at, fields) == [] <==> ValidCondition(when, fields)
  {
  }

  lemma SoundAction(action: Action, at: Path, fields: Fields)
    ensures ActionProblems(action, at, fields) == [] <==> ValidAction(action, fields)
  {
    hide ConditionProblems, WorkProblems, ValidCondition, ValidWork;
    BothSilent(OfferedWhenProblems(action, at, fields), WorkProblems(action, at, fields));
    SoundWork(action, at, fields);
    if action.visibleWhen.Some? {
      SoundCondition(action.visibleWhen.value, at + [Name("visibleWhen")], fields);
    }
  }

  lemma SoundWork(action: Action, at: Path, fields: Fields)
    ensures WorkProblems(action, at, fields) == [] <==> ValidWork(action, fields)
  {
    if action.HttpCall? {
      var holes := Holes(Pieces(action.url));
      var rule := Interpolating(holes, at, fields);
      SilentWhenEachIs(holes, rule, |holes|);
      if forall i :: 0 <= i < |holes| ==> rule(holes[i], i) == [] {
        FirstHoleDecides(holes, at, fields, |holes|);
      }
    }
  }

  lemma {:induction false} FirstHoleDecides(holes: seq<string>, at: Path, fields: Fields, n: nat)
    requires n <= |holes|
    requires var rule := Interpolating(holes, at, fields);
             forall i :: 0 <= i < |holes| ==> rule(holes[i], i) == []
    ensures forall i :: 0 <= i < n ==> holes[i] in fields && !fields[holes[i]].sensitive
  {
    if n > 0 {
      FirstHoleDecides(holes, at, fields, n - 1);
      var rule := Interpolating(holes, at, fields);
      assert rule(holes[n - 1], n - 1) == [];
      if holes[n - 1] in holes[..n - 1] {
        var j :| 0 <= j < n - 1 && holes[j] == holes[n - 1];
      }
    }
  }

  ghost predicate ValidDrawing(r: Resource, fields: Fields) {
    && (forall i :: 0 <= i < |r.fields| ==> ValidTones(r.fields[i]))
    && ValidTable(r.view, fields)
    && ValidDetail(r.detail, fields, RelationshipKeys(r.relationships))
  }

  lemma SoundDrawing(r: Resource, at: Path, fields: Fields)
    ensures DrawnProblems(r, at, fields) == [] <==> ValidDrawing(r, fields)
  {
    hide TableProblems, DetailProblems, Reported, ValidTones, ValidTable, ValidDetail;
    var relationships := RelationshipKeys(r.relationships);
    SoundTones(r, at);
    SoundTable(r.view, TablePath(at), fields);
    SoundDetail(r.detail, DetailPath(at), fields, relationships);
    var tones, table := Reported(r.fields, Tinting(at), |r.fields|), TableProblems(r.view, TablePath(at), fields);
    BothSilent(tones + table, DetailProblems(r.detail, DetailPath(at), fields, relationships));
    BothSilent(tones, table);
  }

  lemma SoundOffers(r: Resource, at: Path, fields: Fields)
    ensures OfferProblems(r, at, fields) == [] <==>
            ValidDrawing(r, fields) && forall i :: 0 <= i < |r.actions| ==> ValidAction(r.actions[i], fields)
  {
    hide DrawnProblems, ActionProblems, ValidAction, ValidDrawing;
    var acting := Acting(at, fields);
    SoundDrawing(r, at, fields);
    SilentWhenEachIs(r.actions, acting, |r.actions|);
    forall i | 0 <= i < |r.actions|
      ensures acting(r.actions[i], i) == [] <==> ValidAction(r.actions[i], fields)
    {
      SoundAction(r.actions[i], At(at, "actions", i), fields);
    }
    BothSilent(DrawnProblems(r, at, fields), Reported(r.actions, acting, |r.actions|));
  }

  /** A resource's own pass is silent exactly when the resource is sound. */
  lemma SoundResource(r: Resource, at: Path, resources: map<Key, Resource>)
    ensures ResourceProblems(r, at, resources) == [] <==> ValidResource(r, resources)
  {
    hide UniqueProblems, OwnProblems, ReferenceProblems, OfferProblems, ValidAction, ValidTable, ValidDetail, ValidTones;
    var fields := FirstFields(r.fields);
    var unique, own := UniqueProblems(r, at), OwnProblems(r, at, fields);
    var references, offers := ReferenceProblems(r, at, resources), OfferProblems(r, at, fields);
    BothSilent(unique + own + references, offers);
    BothSilent(unique + own, references);
    BothSilent(unique, own);
    SoundUnique(r, at);
    if DistinctFields(r.fields) {
      FirstIsOnlyField(r.fields);
      SoundOwn(r, at, fields);
      SoundReferences(r, at, resources);
      SoundOffers(r, at, fields);
    }
  }

  /** The pass reports nothing exactly when the definition is valid. */
  lemma SilentExactlyWhenValid(definition: Definition)
    ensures ReferenceErrors(definition) == [] <==> Valid(definition)
  {
    hide ResourceProblems, ValidResource, NavigationProblems, NavigationMatches;
    var all := definition.resources;
    var resources := FirstResources(all);
    var duplicates := Duplicates(ResourceKeys(all), [], "resources");
    var navigation, own := NavigationProblems(definition, resources), Reported(all, Resourced(resources), |all|);
    BothSilent(duplicates + navigation, own);
    BothSilent(duplicates, navigation);
    UniqueKeys(ResourceKeys(all), [], "resources");
    ResourceKeysDiffer(all);
    if DistinctResources(all) {
      FirstIsOnlyResource(all);
      NavigationIsABijection(definition);
      SilentWhenEachIs(all, Resourced(resources), |all|);
      forall i | 0 <= i < |all|
        ensures Resourced(resources)(all[i], i) == [] <==> ValidResource(all[i], resources)
      {
        SoundResource(all[i], At([], "resources", i), resources);
      }
    }
  }
}
