/** Where a promise fails, and exactly when: a record that is its own manager reads
    back stale, and a search that covers a secret tells it. */
module Counterexamples {
  import opened Outcomes
  import opened Definitions
  import opened Statements
  import opened Columns
  import opened RecordValues
  import opened RecordsMapper
  import opened Validity
  import opened Joins
  import opened QueryBuilder
  import opened Reader
  import opened ReadBack
  import opened Blindness
  import opened Secrecy
  import Asking
  import Openness
  import Search
  import Writer

  // ------------------------------------------------------- a row that names itself

  const ID := Field("id", Number, false, false, false, false)
  const NAME := Field("name", PlainText, false, false, true, false)
  const BOSS := Field("boss", Relation("people"), false, false, false, false)

  const PEOPLE := Resource(
    "people", "people", "id", None, Some("name"), None, [ID, NAME, BOSS], false, true, [],
    TableView(["name"], "name", false, [], []), DetailView([["name", "boss"]], false, []), [])

  const STAFF := Definition([["people"]], [PEOPLE])

  const ADA: Row := map["id" := Int(1), "name" := Text("Ada"), "boss" := Int(1)]
  const RENAME := Submission(["name"], map["name" := Text("Ada L.")])
  const TABLES: Database := map["people" := [ADA]]

  /** Values come back from this driver as they went in. */
  const PLAIN := Driver((_, v) => v, (_, v) => v, v => v)

  predicate AnythingFits(f: Field, v: Value) {
    true
  }

  lemma PeopleIndexed()
    ensures IndexResources([PEOPLE]) == map["people" := PEOPLE]
    ensures IndexFields(PEOPLE.fields) == map["id" := ID, "name" := NAME, "boss" := BOSS]
  {
    assert [PEOPLE][..0] == [];
    assert [ID, NAME, BOSS][..2] == [ID, NAME] && [ID, NAME][..1] == [ID] && [ID][..0] == [];
    assert IndexFields([ID]) == map["id" := ID];
    assert IndexFields([ID, NAME]) == map["id" := ID, "name" := NAME];
  }

  lemma StaffIsValid()
    ensures Valid(STAFF)
  {
    PeopleIndexed();
    var fields := IndexFields(PEOPLE.fields);
    assert Validity.Listed(STAFF.navigation) == ["people"] by {
      assert STAFF.navigation[..0] == [];
    }
    assert PEOPLE.fields[1].editable;
    assert ValidTable(PEOPLE.view, fields);
    assert ValidResource(PEOPLE, IndexResources(STAFF.resources));
  }

  lemma RenameIsAccepted()
    ensures RENAME.WellFormed() && Problems(PEOPLE, Updating, RENAME, AnythingFits) == []
  {
    PeopleIndexed();
    assert Acceptable(PEOPLE, Updating, RENAME, AnythingFits);
    AcceptedExactlyWhenAcceptable(PEOPLE, Updating, RENAME, AnythingFits);
  }

  lemma KeysHoldOfOne(db: Database, row: Row)
    requires RowsOf(db, "people") == [row] && Cell(row, "id") != Null
    ensures KeysHold(db, IndexResources([PEOPLE]))
  {
    PeopleIndexed();
  }

  /** She is her own boss, and is renamed. The update answers with her boss under
      the old name, and a read a moment later with the new one. */
  lemma ASelfNamedRowReadsBackStale(c: Context, later: Outcome<Record>)
    requires c.driver == PLAIN && c.resources == IndexResources([PEOPLE])
    requires RENAME.WellFormed()
    requires MayRead(c, Writer.WriteRecord(c, AnythingFits, TABLES, PEOPLE, Updating, RENAME, Int(1), map[]).db, PEOPLE, Int(1), later)
    ensures var effect := Writer.WriteRecord(c, AnythingFits, TABLES, PEOPLE, Updating, RENAME, Int(1), map[]);
            effect.answer.Ok? && later.Ok? && effect.answer.value.record != later.value
  {
    hide Writer.WriteRecord, MayRead, Valid, Problems, NamesItselfAlike, Reads, KeysHold;
    StaffIsValid();
    RenameIsAccepted();
    KeysHoldOfOne(TABLES, ADA);
    assert Standing(c, STAFF, TABLES, PEOPLE) && NamesRow(TABLES, PEOPLE, Int(1), 0);
    AnUpdateIsWhatItSays(c, STAFF, TABLES, PEOPLE, RENAME, AnythingFits, Int(1), 0);
    var effect := Writer.WriteRecord(c, AnythingFits, TABLES, PEOPLE, Updating, RENAME, Int(1), map[]);
    var row := RowsOf(effect.db, "people")[0];
    assert RowsOf(effect.db, "people") == [row];
    assert Cell(row, "id") == Int(1) && Cell(row, "boss") == Int(1) && Cell(row, "name") == Text("Ada L.");
    KeysHoldOfOne(effect.db, row);
    AnUpdateReadsBack(c, STAFF, TABLES, PEOPLE, RENAME, AnythingFits, Int(1), 0, later);
    PeopleIndexed();
    ASelfPointerIsNamedStale(PLAIN, c.resources, PEOPLE, ADA, row, BOSS);
  }

  // ---------------------------------------------------- when a count tells

  /** Two databases that agree on every public column, and that this count tells
      apart. */
  ghost predicate Tells(pg: Postgres, resources: Resources, total: Query<Count>) {
    exists a, b ::
      && Openness.Agree(Opens(resources), Tables(resources), a, b)
      && Counted(pg, a, total.statement, total.values) != Counted(pg, b, total.statement, total.values)
  }

  function OneRow(table: Key, row: Row): Database {
    map[table := [row]]
  }

  /** A condition that a secret meets and nothing does not. */
  lemma OneSecretTells(
    pg: Postgres, resources: Resources, table: Key, condition: Condition, values: seq<Value>, column: Key, secret: Value)
    requires column !in Open(resources, table)
    requires Holds(pg, map[column := secret], condition, values) && !Holds(pg, map[], condition, values)
    ensures Tells(pg, resources, Query(Count(table, [condition]), values, [], []))
  {
    hide Holds, Open;
    var row: Row, empty: Row := map[column := secret], map[];
    var a, b := OneRow(table, row), OneRow(table, empty);
    OneRowCounts(pg, row, condition, values);
    OneRowCounts(pg, empty, condition, values);
    assert RowsOf(a, table) == [row] && RowsOf(b, table) == [empty];
    forall t | t in Tables(resources) ensures Openness.AllAlike(Opens(resources)(t), RowsOf(a, t), RowsOf(b, t)) {
      if t == table {
        assert Openness.Alike(Open(resources, t), row, empty);
      } else {
        assert RowsOf(a, t) == RowsOf(b, t) == [];
      }
    }
    assert Openness.Agree(Opens(resources), Tables(resources), a, b);
    var total := Query(Count(table, [condition]), values, [], []);
    assert Counted(pg, a, total.statement, total.values) == 1 && Counted(pg, b, total.statement, total.values) == 0;
  }

  /** A page asked for by a search alone counts by one condition. */
  lemma SearchedAlone(resources: Resources, r: Resource, query: ListQuery, parses: string -> bool)
    requires query.search.Some? && query.filter == []
    requires CompiledRecords(resources, r, query, None, parses).Ok?
    ensures r.view.search != []
    ensures CompiledRecords(resources, r, query, None, parses).value.total ==
            Query(Count(r.table, [AnyILike(r.view.search, false, 1)]),
              [Text(Search.SearchPattern(query.search.value))], [], [])
  {
    hide Selected, ListFields, Ordered, Search.SearchPattern, RequireFields;
    var narrowed := Narrowing(r, query, None, parses).value;
    assert narrowed.conditions == [AnyILike(r.view.search, false, 1)];
    assert narrowed.bound == [Text(Search.SearchPattern(query.search.value))];
  }

  /** The term itself says the term, and nothing at all does not. */
  lemma TheTermSaysTheTerm(pg: Postgres, columns: seq<Key>, k: nat, term: string)
    requires Search.KeepsMeta(pg.fold) && k < |columns|
    ensures var c, values := AnyILike(columns, false, 1), [Text(Search.SearchPattern(term))];
      Holds(pg, map[columns[k] := Text(term)], c, values) && !Holds(pg, map[], c, values)
  {
    hide Search.SearchPattern, Search.ILike, Search.KeepsMeta;
    var values, row: Row := [Text(Search.SearchPattern(term))], map[columns[k] := Text(term)];
    Search.SearchIsSubstringSearch(pg.fold, term, term);
    var folded := Search.Folded(pg.fold, term);
    assert folded <= folded[0..];
    assert Matches(pg, Cell(row, columns[k]), false, Bound(values, 1));
  }

  /** A search tells secrets exactly when it covers one: the compiler does not ask
      again whether a searched column is sensitive (conditions.ts:36-43), so the
      checker's word for it is all there is. */
  lemma ASearchTellsExactlyWhenItCoversASecret(
    pg: Postgres, resources: Resources, r: Resource, query: ListQuery, parses: string -> bool)
    requires Search.KeepsMeta(pg.fold) && r.table in Tables(resources)
    requires query.search.Some? && query.filter == []
    requires CompiledRecords(resources, r, query, None, parses).Ok?
    ensures Tells(pg, resources, CompiledRecords(resources, r, query, None, parses).value.total)
            <==> exists k :: 0 <= k < |r.view.search| && r.view.search[k] !in Open(resources, r.table)
  {
    SearchedAlone(resources, r, query, parses);
    var term := query.search.value;
    var c, values := AnyILike(r.view.search, false, 1), [Text(Search.SearchPattern(term))];
    hide CompiledRecords, Search.SearchPattern, Search.KeepsMeta, Open, Tables, Openness.Agree, Counted, Holds;
    if k :| 0 <= k < |r.view.search| && r.view.search[k] !in Open(resources, r.table) {
      TheTermSaysTheTerm(pg, r.view.search, k, term);
      OneSecretTells(pg, resources, r.table, c, values, r.view.search[k], Text(term));
    } else {
      forall a, b | Openness.Agree(Opens(resources), Tables(resources), a, b)
        ensures Counted(pg, a, Count(r.table, [c]), values) == Counted(pg, b, Count(r.table, [c]), values)
      {
        Openness.CountsAlike(pg, Opens(resources), Tables(resources), Count(r.table, [c]), values, a, b);
      }
    }
  }

  // ------------------------------------------------------ a definition unchecked

  const KEY := Field("id", Number, false, false, false, false)
  const TOKEN := Field("token", PlainText, true, false, false, false)

  /** Its search box covers a secret: the pass would refuse it, and the compiler
      does not ask again (conditions.ts:36-43). */
  const VAULT := Resource(
    "vault", "vault", "id", None, None, None, [KEY, TOKEN], false, false, [],
    TableView(["id"], "id", false, ["token"], []), DetailView([["id"]], false, []), [])

  const LOOKING := ListQuery(1, 25, Some("a"), None, None, [])

  function VaultOf(secret: string): Database {
    map["vault" := [map["id" := Int(1), "token" := Text(secret)]]]
  }

  lemma VaultIndexed()
    ensures IndexResources([VAULT]) == map["vault" := VAULT]
    ensures IndexFields(VAULT.fields) == map["id" := KEY, "token" := TOKEN]
  {
    assert [VAULT][..0] == [];
    assert [KEY, TOKEN][..1] == [KEY] && [KEY][..0] == [];
    assert IndexFields([KEY]) == map["id" := KEY];
  }

  lemma VaultsAreIndistinct()
    ensures Indistinct(Definition([["vault"]], [VAULT]), VaultOf("a"), VaultOf("b"))
  {
    VaultIndexed();
    var resources := IndexResources([VAULT]);
    assert TOKEN.key !in Open(resources, "vault");
    forall t | t in Tables(resources)
      ensures Openness.AllAlike(Opens(resources)(t), RowsOf(VaultOf("a"), t), RowsOf(VaultOf("b"), t))
    {
      assert t == "vault";
      forall k | k in Open(resources, "vault") ensures k == "id" {}
    }
  }

  lemma VaultCompiles(parses: string -> bool)
    ensures var o := CompiledRecords(IndexResources([VAULT]), VAULT, LOOKING, None, parses);
      && o.Ok?
      && o.value.total.statement == Count("vault", [AnyILike(["token"], false, 1)])
      && o.value.total.values == [Text(Search.SearchPattern("a"))]
  {
    hide Search.SearchPattern;
    VaultIndexed();
    assert ["token"][..0] == [] && ["id"][..0] == [];
    assert RequireFields(VAULT, []) == Ok([]);
    assert RequireFields(VAULT, ["token"]) == Ok([] + [TOKEN]);
    assert RequireFields(VAULT, ["id"]) == Ok([] + [KEY]);
    var columns := RequireFields(VAULT, ["id"]).value;
    assert columns == [KEY] && columns[0].key == "id";
    assert ListFields(VAULT) == Ok([KEY]);
    assert [KEY][..0] == [];
    assert Selected([KEY], IndexResources([VAULT])).Ok?;
    assert Narrowing(VAULT, LOOKING, None, parses).Ok?;
  }

  lemma OneRowCounts(pg: Postgres, row: Row, condition: Condition, values: seq<Value>)
    ensures |Where(pg, Alone([row]), [condition], values)| == if Holds(pg, row, condition, values) then 1 else 0
  {
    hide Holds;
    Asking.HoldsOne(pg, row, condition, values);
    assert Alone([row])[1..] == [];
  }

  lemma ContainsOnly(text: string, term: string)
    requires |text| == 1 && |term| == 1
    ensures Search.Contains(text, term) <==> text == term
  {
    assert text[0..] == text && text[1..] == "";
    if Search.Contains(text, term) {
      var k :| 0 <= k <= |text| && term <= text[k..];
      assert k == 0;
    }
  }

  /** The count is of the rows whose secret says what was looked for. */
  lemma VaultCounts(pg: Postgres, secret: string)
    requires Search.KeepsMeta(pg.fold) && |secret| == 1
    ensures Counted(pg, VaultOf(secret), Count("vault", [AnyILike(["token"], false, 1)]), [Text(Search.SearchPattern("a"))])
            == if pg.fold(secret[0]) == pg.fold('a') then 1 else 0
  {
    hide Search.SearchPattern, Search.ILike, Search.Contains, Search.KeepsMeta;
    var condition, values := AnyILike(["token"], false, 1), [Text(Search.SearchPattern("a"))];
    var row: Row := map["id" := Int(1), "token" := Text(secret)];
    assert RowsOf(VaultOf(secret), "vault") == [row];
    OneRowCounts(pg, row, condition, values);
    Search.SearchIsSubstringSearch(pg.fold, secret, "a");
    var said, sought := Search.Folded(pg.fold, secret), Search.Folded(pg.fold, "a");
    ContainsOnly(said, sought);
    assert said == [pg.fold(secret[0])] && sought == [pg.fold('a')];
    assert Matches(pg, Cell(row, condition.columns[0]), false, Bound(values, 1)) <==>
           Search.ILike(pg.fold, secret, Search.SearchPattern("a"));
  }

  lemma VaultIsNotValid()
    ensures !Valid(Definition([["vault"]], [VAULT]))
  {
    VaultIndexed();
    hide ValidKey, ValidLabel, ValidDeclarations, ValidEditing, ValidAction, ValidRelationship;
    assert !Searchable(IndexFields(VAULT.fields), VAULT.view.search[0]);
  }

  /** Two databases apart only in a secret, and a count that tells them apart:
      containment of the search box is the checker's work, not the compiler's. */
  lemma UncheckedSearchTellsSecrets(pg: Postgres, parses: string -> bool)
    requires Search.KeepsMeta(pg.fold) && pg.fold('a') != pg.fold('b')
    ensures var definition := Definition([["vault"]], [VAULT]);
            var compiled := CompiledRecords(IndexResources([VAULT]), VAULT, LOOKING, None, parses);
      && Indistinct(definition, VaultOf("a"), VaultOf("b"))
      && !Valid(definition)
      && compiled.Ok?
      && var total := compiled.value.total;
      && Counted(pg, VaultOf("a"), total.statement, total.values) == 1
      && Counted(pg, VaultOf("b"), total.statement, total.values) == 0
  {
    hide Search.SearchPattern, Search.KeepsMeta, CompiledRecords, Valid, Indistinct, Counted;
    VaultsAreIndistinct();
    VaultIsNotValid();
    VaultCompiles(parses);
    VaultCounts(pg, "a");
    VaultCounts(pg, "b");
  }
}
