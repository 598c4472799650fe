/** Every problem the pass reports is told in the file it is in: below a resource,
    in that resource's own; anywhere else, in the app's
    (packages/contracts/src/definition/references.ts, packages/cli/src/assemble/sources.ts). */
module Locating {
  import opened Outcomes
  import opened Definitions
  import opened Paths
  import opened ActionUrls
  import opened Validity
  import opened Checks
  import opened References
  import opened Sources

  /** At a place below another, by names that say something. */
  predicate Inside(base: Path, p: Problem) {
    base <= p.at && forall i :: |base| <= i < |p.at| && p.at[i].Name? ==> p.at[i].name != ""
  }

  ghost predicate AllInside(base: Path, problems: seq<Problem>) {
    forall p :: p in problems ==> Inside(base, p)
  }

  lemma BothInside(base: Path, a: seq<Problem>, b: seq<Problem>)
    requires AllInside(base, a) && AllInside(base, b)
    ensures AllInside(base, a + b)
  {
    hide Inside;
  }

  /** What is reported is reported of some entry. */
  lemma {:induction false} ReportedOf<T>(items: seq<T>, rule: Rule<T>, n: nat, p: Problem) returns (i: nat)
    requires n <= |items| && p in Reported(items, rule, n)
    ensures i < n && p in rule(items[i], i)
  {
    if p in rule(items[n - 1], n - 1) {
      i := n - 1;
    } else {
      i := ReportedOf(items, rule, n - 1, p);
    }
  }

  lemma {:induction false} ReportedInside<T>(base: Path, items: seq<T>, rule: Rule<T>, n: nat)
    requires n <= |items|
    requires forall i :: 0 <= i < n ==> AllInside(base, rule(items[i], i))
    ensures AllInside(base, Reported(items, rule, n))
  {
    hide Inside;
    if n > 0 {
      ReportedInside(base, items, rule, n - 1);
      BothInside(base, Reported(items, rule, n - 1), rule(items[n - 1], n - 1));
    }
  }

  lemma DuplicatesInside(keys: seq<Key>, at: Path, list: string)
    requires list != ""
    ensures AllInside(at, Duplicates(keys, at, list))
  {
    var rule := Claimed(keys, at, list);
    forall i | 0 <= i < |keys| ensures AllInside(at, rule(keys[i], i)) {
      assert At(at, list, i) + [Name("key")] == at + [Name(list), Index(i), Name("key")];
    }
    ReportedInside(at, keys, rule, |keys|);
  }

  lemma OwnInside(r: Resource, at: Path, fields: Fields)
    ensures AllInside(at, KeyProblems(r, at, fields))
    ensures AllInside(at, LabelProblems(r, at, fields))
    ensures AllInside(at, ReadOnlyProblems(r, at))
    ensures AllInside(at, GenerationProblems(r, at))
    ensures AllInside(at, NothingEditable(r, at))
  {
    forall flaw ensures AllInside(at, [Problem(at + [Name("primaryKey")], flaw)]) {}
    forall flaw ensures AllInside(at, [Problem(at + [Name("labelField")], flaw)]) {}
    forall flaw ensures AllInside(at, [Problem(at + [Name("readOnly")], flaw)]) {}
    forall flaw ensures AllInside(at, [Problem(at + [Name("writes")], flaw)]) {}
    hide AllInside;
  }

  lemma EditingInside(r: Resource, field: Field, at: Path)
    ensures AllInside(at, EditingProblems(r, field, at))
  {
    forall flaw ensures AllInside(at, [Problem(at + [Name("editable")], flaw)]) {}
    hide Inside;
  }

  lemma EntryInside(at: Path, list: string, i: nat, problems: seq<Problem>)
    requires list != "" && AllInside(At(at, list, i), problems)
    ensures AllInside(at, problems)
  {
  }

  lemma WritesInside(r: Resource, at: Path)
    ensures AllInside(at, Reported(r.fields, OnlyFirst(r.fields, Editing(r, at)), |r.fields|))
  {
    hide Inside, EditingProblems;
    var rule := OnlyFirst(r.fields, Editing(r, at));
    forall i | 0 <= i < |r.fields| ensures AllInside(at, rule(r.fields[i], i)) {
      EditingInside(r, r.fields[i], At(at, "fields", i));
      EntryInside(at, "fields", i, EditingProblems(r, r.fields[i], At(at, "fields", i)));
    }
    ReportedInside(at, r.fields, rule, |r.fields|);
  }

  lemma ReferencesInside(r: Resource, at: Path, resources: map<Key, Resource>)
    ensures AllInside(at, ReferenceProblems(r, at, resources))
  {
    var pointing, relating := Pointing(at, resources), Relating(r, at, resources);
    forall i | 0 <= i < |r.fields| ensures AllInside(at, pointing(r.fields[i], i)) {
      EntryInside(at, "fields", i, [Problem(At(at, "fields", i) + [Name("target")], UnknownResource)]);
    }
    forall i | 0 <= i < |r.relationships| ensures AllInside(at, relating(r.relationships[i], i)) {
      EntryInside(at, "relationships", i, RelationshipProblems(r.relationships[i], At(at, "relationships", i), r, resources));
    }
    hide Inside;
    ReportedInside(at, r.fields, pointing, |r.fields|);
    ReportedInside(at, r.relationships, relating, |r.relationships|);
    BothInside(at, Reported(r.fields, pointing, |r.fields|), Reported(r.relationships, relating, |r.relationships|));
  }

  lemma ListingInside(key: Key, at: Path, fields: Fields)
    ensures AllInside(at, ListingProblems(key, at, fields))
  {
    forall flaw ensures AllInside(at, [Problem(at, flaw)]) {
      assert at + [] == at;
    }
    hide Inside;
  }

  lemma TableInside(view: TableView, at: Path, fields: Fields)
    ensures AllInside(at, TableProblems(view, at, fields))
  {
    hide Inside, ListingProblems, Listable;
    var showing, searching, filtering := Showing(at, fields), Searching(at, fields), Filtering(at, fields);
    forall i | 0 <= i < |view.columns| ensures AllInside(at, showing(view.columns[i], i)) {
      ListingInside(view.columns[i], At(at, "columns", i), fields);
      EntryInside(at, "columns", i, ListingProblems(view.columns[i], At(at, "columns", i), fields));
    }
    forall i | 0 <= i < |view.search| ensures AllInside(at, searching(view.search[i], i)) {
      SearchedInside(view.search[i], at, fields, i);
    }
    forall i | 0 <= i < |view.filters| ensures AllInside(at, filtering(view.filters[i], i)) {
      FilteredInside(view.filters[i], at, fields, i);
    }
    ReportedInside(at, view.columns, showing, |view.columns|);
    ReportedInside(at, view.search, searching, |view.search|);
    ReportedInside(at, view.filters, filtering, |view.filters|);
    ListingInside(view.sortField, SortPath(at), fields);
    SortInside(at, ListingProblems(view.sortField, SortPath(at), fields));
    var columns, sort := Reported(view.columns, showing, |view.columns|), ListingProblems(view.sortField, SortPath(at), fields);
    var search, filters := Reported(view.search, searching, |view.search|), Reported(view.filters, filtering, |view.filters|);
    hide Reported, AllInside;
    BothInside(at, columns, sort);
    BothInside(at, columns + sort, search);
    BothInside(at, columns + sort + search, filters);
  }

  lemma SortInside(at: Path, problems: seq<Problem>)
    requires AllInside(SortPath(at), problems)
    ensures AllInside(at, problems)
  {
  }

  lemma SearchedInside(key: Key, at: Path, fields: Fields, i: nat)
    ensures AllInside(at, Searching(at, fields)(key, i))
  {
    hide ListingProblems;
    var path := At(at, "search", i);
    ListingInside(key, path, fields);
    assert path + [] == path;
    hide Inside, AllInside;
    EntryInside(at, "search", i, Searching(at, fields)(key, i));
  }

  lemma FilteredInside(filter: Filter, at: Path, fields: Fields, i: nat)
    ensures AllInside(at, Filtering(at, fields)(filter, i))
  {
    hide ListingProblems;
    var path := At(at, "filters", i);
    ListingInside(filter.field, path + [Name("field")], fields);
    assert path + [] == path;
    hide Inside, AllInside;
    EntryInside(at, "filters", i, Filtering(at, fields)(filter, i));
  }

  lemma ConditionInside(action: Action, at: Path, fields: Fields)
    ensures AllInside(at, OfferedWhenProblems(action, at, fields))
  {
    var below := at + [Name("visibleWhen")];
    forall flaw ensures AllInside(at, [Problem(below, flaw)]) {}
    forall flaw ensures AllInside(at, [Problem(below + [Name("field")], flaw)]) {}
    forall flaw ensures AllInside(at, [Problem(below + [Name("equals")], flaw)]) {}
    hide Inside, LiteralFor, IsLiteral;
  }

  lemma ActionInside(action: Action, at: Path, fields: Fields)
    ensures AllInside(at, ActionProblems(action, at, fields))
  {
    hide Inside, OfferedWhenProblems, WorkProblems;
    ConditionInside(action, at, fields);
    WorkInside(action, at, fields);
    BothInside(at, OfferedWhenProblems(action, at, fields), WorkProblems(action, at, fields));
  }

  lemma WorkInside(action: Action, at: Path, fields: Fields)
    ensures AllInside(at, WorkProblems(action, at, fields))
  {
    hide Pieces, Holes;
    forall flaw ensures AllInside(at, [Problem(at + [Name("field")], flaw)]) {}
    forall flaw ensures AllInside(at, [Problem(at + [Name("value")], flaw)]) {}
    forall flaw ensures AllInside(at, [Problem(at + [Name("url")], flaw)]) {}
    hide Inside, AllInside;
    if action.HttpCall? {
      var holes := Holes(Pieces(action.url));
      var rule := Interpolating(holes, at, fields);
      forall i | 0 <= i < |holes| ensures AllInside(at, rule(holes[i], i)) {}
      ReportedInside(at, holes, rule, |holes|);
    }
  }

  /** Structure has every value that is given a tone be some text. */
  ghost predicate NamedTones(r: Resource) {
    forall i :: 0 <= i < |r.fields| && r.fields[i].kind.Enum? ==>
      forall j :: 0 <= j < |r.fields[i].kind.tones| ==> r.fields[i].kind.tones[j] != ""
  }

  lemma FieldTonesInside(r: Resource, at: Path, i: nat)
    requires NamedTones(r) && i < |r.fields|
    ensures AllInside(at, Tinting(at)(r.fields[i], i))
  {
    var field, below := r.fields[i], At(at, "fields", i);
    if field.kind.Enum? {
      var tones, toning := field.kind.tones, Toning(field.kind.values, below);
      forall j | 0 <= j < |tones| ensures AllInside(at, toning(tones[j], j)) {
        assert below + [Name("tones"), Name(tones[j])] == at + [Name("fields"), Index(i), Name("tones"), Name(tones[j])];
      }
      ReportedInside(at, tones, toning, |tones|);
    }
  }

  lemma TonesInside(r: Resource, at: Path)
    requires NamedTones(r)
    ensures AllInside(at, Reported(r.fields, Tinting(at), |r.fields|))
  {
    var tinting := Tinting(at);
    forall i | 0 <= i < |r.fields| ensures AllInside(at, tinting(r.fields[i], i)) {
      FieldTonesInside(r, at, i);
    }
    hide Tinting;
    ReportedInside(at, r.fields, tinting, |r.fields|);
  }

  lemma SectionInside(section: seq<Key>, at: Path, fields: Fields)
    ensures AllInside(at, SectionProblems(section, at, fields))
  {
    var placing := Placing(at, fields);
    forall i | 0 <= i < |section| ensures AllInside(at, placing(section[i], i)) {}
    ReportedInside(at, section, placing, |section|);
  }

  lemma DetailInside(view: DetailView, at: Path, fields: Fields, relationships: seq<Key>)
    ensures AllInside(at, DetailProblems(view, at, fields, relationships))
  {
    var sectioning, embedding := Sectioning(at, fields), Embedding(at, relationships);
    forall i | 0 <= i < |view.sections| ensures AllInside(at, sectioning(view.sections[i], i)) {
      SectionInside(view.sections[i], At(at, "sections", i), fields);
      EntryInside(at, "sections", i, SectionProblems(view.sections[i], At(at, "sections", i), fields));
    }
    forall i | 0 <= i < |view.relatedLists| ensures AllInside(at, embedding(view.relatedLists[i], i)) {}
    assert AllInside(at, LayoutProblems(view, at));
    hide Inside, Sectioning, Embedding, LayoutProblems;
    ReportedInside(at, view.sections, sectioning, |view.sections|);
    ReportedInside(at, view.relatedLists, embedding, |view.relatedLists|);
    hide Reported, AllInside;
    BothInside(at, Reported(view.sections, sectioning, |view.sections|), LayoutProblems(view, at));
    BothInside(at, Reported(view.sections, sectioning, |view.sections|) + LayoutProblems(view, at),
      Reported(view.relatedLists, embedding, |view.relatedLists|));
  }

  lemma DrawnInside(r: Resource, at: Path, fields: Fields)
    requires NamedTones(r)
    ensures AllInside(at, DrawnProblems(r, at, fields))
  {
    hide Inside, TableProblems, DetailProblems, NamedTones, Tinting, Reported, AllInside;
    var relationships := RelationshipKeys(r.relationships);
    TonesInside(r, at);
    TableInside(r.view, TablePath(at), fields);
    ViewsInside(at, "table", TableProblems(r.view, TablePath(at), fields));
    DetailInside(r.detail, DetailPath(at), fields, relationships);
    ViewsInside(at, "detail", DetailProblems(r.detail, DetailPath(at), fields, relationships));
    var tones, table := Reported(r.fields, Tinting(at), |r.fields|), TableProblems(r.view, TablePath(at), fields);
    BothInside(at, tones, table);
    BothInside(at, tones + table, DetailProblems(r.detail, DetailPath(at), fields, relationships));
  }

  lemma ViewsInside(at: Path, view: string, problems: seq<Problem>)
    requires view != "" && AllInside(at + [Name("views"), Name(view)], problems)
    ensures AllInside(at, problems)
  {
  }

  lemma OffersInside(r: Resource, at: Path, fields: Fields)
    requires NamedTones(r)
    ensures AllInside(at, OfferProblems(r, at, fields))
  {
    hide Inside, DrawnProblems, ActionProblems, NamedTones;
    DrawnInside(r, at, fields);
    var acting := Acting(at, fields);
    forall i | 0 <= i < |r.actions| ensures AllInside(at, acting(r.actions[i], i)) {
      ActionInside(r.actions[i], At(at, "actions", i), fields);
      EntryInside(at, "actions", i, ActionProblems(r.actions[i], At(at, "actions", i), fields));
    }
    ReportedInside(at, r.actions, acting, |r.actions|);
    BothInside(at, DrawnProblems(r, at, fields), Reported(r.actions, acting, |r.actions|));
  }

  /** A resource's problems are all below the resource. */
  lemma ResourceInside(r: Resource, at: Path, resources: map<Key, Resource>)
    requires NamedTones(r)
    ensures AllInside(at, ResourceProblems(r, at, resources))
  {
    hide Duplicates, KeyProblems, LabelProblems, ReadOnlyProblems, GenerationProblems, NothingEditable, Reported, ReferenceProblems, OfferProblems, AllInside, NamedTones;
    var fields := FirstFields(r.fields);
    DuplicatesInside(FieldKeys(r.fields), at, "fields");
    DuplicatesInside(RelationshipKeys(r.relationships), at, "relationships");
    DuplicatesInside(ActionKeys(r.actions), at, "actions");
    OwnInside(r, at, fields);
    WritesInside(r, at);
    ReferencesInside(r, at, resources);
    OffersInside(r, at, fields);
    var a, b, c := Duplicates(FieldKeys(r.fields), at, "fields"), Duplicates(RelationshipKeys(r.relationships), at, "relationships"),
                   Duplicates(ActionKeys(r.actions), at, "actions");
    BothInside(at, a, b);
    BothInside(at, a + b, c);
    var d, e, f := ReadOnlyProblems(r, at), GenerationProblems(r, at), NothingEditable(r, at);
    var g := Reported(r.fields, OnlyFirst(r.fields, Editing(r, at)), |r.fields|);
    BothInside(at, d, e);
    BothInside(at, d + e, f);
    BothInside(at, d + e + f, g);
    BothInside(at, KeyProblems(r, at, fields), LabelProblems(r, at, fields));
    BothInside(at, KeyProblems(r, at, fields) + LabelProblems(r, at, fields), WriteProblems(r, at));
    BothInside(at, UniqueProblems(r, at), OwnProblems(r, at, fields));
    BothInside(at, UniqueProblems(r, at) + OwnProblems(r, at, fields), ReferenceProblems(r, at, resources));
    BothInside(at, UniqueProblems(r, at) + OwnProblems(r, at, fields) + ReferenceProblems(r, at, resources), OfferProblems(r, at, fields));
  }

  // ------------------------------------------------------------ in which file

  /** Where a problem of a definition composed of these files is told. */
  ghost predicate ToldWhereItIs(app: File, files: seq<File>, p: Problem) {
    var told := Located(SourcesOf(app, files), Formatted(p.at));
    if |p.at| >= 2 && p.at[0] == Name("resources") && p.at[1].Index?
    then p.at[1].index < |files| && told == Location(files[p.at[1].index], Formatted(p.at[2..]))
    else told == Location(app, Formatted(p.at))
  }

  lemma ResourceProblemsAreTold(app: File, files: seq<File>, index: nat, problems: seq<Problem>)
    requires index < |files| && AllInside([Name("resources"), Index(index)], problems)
    ensures forall p :: p in problems ==> ToldWhereItIs(app, files, p)
  {
    forall p | p in problems ensures ToldWhereItIs(app, files, p) {
      ResourceProblemIsTold(app, files, index, p);
    }
  }

  lemma ResourceProblemIsTold(app: File, files: seq<File>, index: nat, p: Problem)
    requires index < |files| && Inside([Name("resources"), Index(index)], p)
    ensures ToldWhereItIs(app, files, p)
  {
    hide Located, Formatted;
    var inner := p.at[2..];
    assert p.at == [Name("resources"), Index(index)] + inner;
    forall i | 0 <= i < |inner| && inner[i].Name? ensures inner[i].name != "" {
      assert inner[i] == p.at[i + 2];
    }
    LocationsRoundTrip(app, files, index, inner);
  }

  lemma {:induction false} NoneCovers(app: File, files: seq<File>, path: string, n: nat)
    requires path != "" && path[0] != 'r' && n <= |files| + 1
    ensures Best(SourcesOf(app, files), path, n) == if n == 0 then None else Some(Source("", app))
  {
    if n > 0 {
      NoneCovers(app, files, path, n - 1);
      if n > 1 {
        var prefix := PrefixOf(n - 2);
        assert prefix[0] == 'r';
        assert (prefix + ".")[0] == 'r' && (prefix + "[")[0] == 'r';
        assert !Covers(prefix, path);
      }
    }
  }

  /** The navigation is the app file's own. */
  lemma NavigationIsTold(app: File, files: seq<File>, p: Problem)
    requires |p.at| > 0 && p.at[0] == Name("navigation") && Inside([], p)
    ensures ToldWhereItIs(app, files, p)
  {
    var rest := p.at[1..];
    assert p.at == [Name("navigation")] + rest;
    assert [Name("navigation")][..0] == [];
    assert Joined([Name("navigation")]) == "navigation";
    forall i | 0 <= i < |rest| && rest[i].Name? ensures rest[i].name != "" {
      assert rest[i] == p.at[i + 1];
    }
    hide Joined;
    JoinedBelow([Name("navigation")], rest);
    var path := Formatted(p.at);
    assert path == "navigation" + Tail(rest) && path[0] == 'n';
    NoneCovers(app, files, path, |files| + 1);
    assert path[0..] == path;
  }

  lemma NavigationInside(definition: Definition, resources: map<Key, Resource>, p: Problem)
    requires p in NavigationProblems(definition, resources)
    ensures Inside([], p)
    ensures p.at != []
    ensures p.at[0] == Name("navigation") ||
            (|p.at| == 2 && p.at[0] == Name("resources") && p.at[1].Index? && p.at[1].index < |definition.resources|)
  {
    hide Inside, GroupsProblems, Reported;
    if p in GroupsProblems(definition.navigation, resources) {
      GroupsInside(definition.navigation, resources, p);
    } else {
      UnlistedInside(definition.resources, Listed(definition.navigation), p);
    }
  }

  lemma UnlistedInside(all: seq<Resource>, listed: seq<Key>, p: Problem)
    requires p in Reported(all, Unlisting(all, listed), |all|)
    ensures Inside([], p)
    ensures |p.at| == 2 && p.at[0] == Name("resources") && p.at[1].Index? && p.at[1].index < |all|
  {
    hide Reported, ResourceKeys;
    var i := ReportedOf(all, Unlisting(all, listed), |all|, p);
    assert p.at == At([], "resources", i);
  }

  lemma {:induction false} GroupsInside(navigation: seq<seq<Key>>, resources: map<Key, Resource>, p: Problem)
    requires p in GroupsProblems(navigation, resources)
    ensures Inside([], p) && p.at != [] && p.at[0] == Name("navigation")
  {
    hide GroupProblems, Inside;
    var n := |navigation| - 1;
    if p in GroupsProblems(navigation[..n], resources) {
      GroupsInside(navigation[..n], resources, p);
    } else {
      GroupInside(resources, Listed(navigation[..n]), navigation[n], n, p);
    }
  }

  lemma GroupInside(resources: map<Key, Resource>, seen: seq<Key>, group: seq<Key>, index: nat, p: Problem)
    requires p in GroupProblems(resources, seen, group, index)
    ensures Inside([], p) && p.at != [] && p.at[0] == Name("navigation")
  {
    hide Reported;
    var at := At([], "navigation", index);
    var i := ReportedOf(group, Entering(resources, seen, group, at), |group|, p);
    assert p.at == At(at, "resources", i);
    assert at == [Name("navigation"), Index(index)];
  }

  lemma ResourcesAreTold(definition: Definition, resources: map<Key, Resource>, app: File, files: seq<File>, p: Problem)
    requires |files| == |definition.resources| && forall r :: r in definition.resources ==> NamedTones(r)
    requires p in Reported(definition.resources, Resourced(resources), |definition.resources|)
    ensures ToldWhereItIs(app, files, p)
  {
    hide ToldWhereItIs, ResourceProblems, Reported, NamedTones;
    var i := ReportedOf(definition.resources, Resourced(resources), |definition.resources|, p);
    var r, at := definition.resources[i], At([], "resources", i);
    assert at == [Name("resources"), Index(i)];
    ResourceInside(r, at, resources);
    ResourceProblemsAreTold(app, files, i, ResourceProblems(r, at, resources));
  }

  lemma DuplicatesAreTold(keys: seq<Key>, app: File, files: seq<File>, p: Problem)
    requires |files| == |keys| && p in Duplicates(keys, [], "resources")
    ensures ToldWhereItIs(app, files, p)
  {
    hide ToldWhereItIs, Reported;
    var i := ReportedOf(keys, Claimed(keys, [], "resources"), |keys|, p);
    assert p.at == [Name("resources"), Index(i), Name("key")];
    ResourceProblemIsTold(app, files, i, p);
  }

  /** Every problem the referential pass reports of a composed definition is told
      in the file that wrote it: a resource's in the resource's own, at its path
      there, and the navigation's in the app's. */
  lemma EveryProblemIsToldWhereItIs(definition: Definition, app: File, files: seq<File>, p: Problem)
    requires |files| == |definition.resources| && p in ReferenceErrors(definition)
    requires forall r :: r in definition.resources ==> NamedTones(r)
    ensures ToldWhereItIs(app, files, p)
  {
    hide ToldWhereItIs, NavigationProblems, Reported, Resourced, NamedTones;
    var resources := FirstResources(definition.resources);
    if p in Duplicates(ResourceKeys(definition.resources), [], "resources") {
      DuplicatesAreTold(ResourceKeys(definition.resources), app, files, p);
    } else if p in NavigationProblems(definition, resources) {
      NavigationInside(definition, resources, p);
      if p.at[0] == Name("navigation") {
        NavigationIsTold(app, files, p);
      } else {
        assert p.at == [Name("resources"), Index(p.at[1].index)];
        ResourceProblemIsTold(app, files, p.at[1].index, p);
      }
    } else {
      ResourcesAreTold(definition, resources, app, files, p);
    }
  }
}
