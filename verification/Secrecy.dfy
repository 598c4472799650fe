/** Nothing marked sensitive has a say in what is answered, or a part in what is
    written, over any run of requests against a valid definition. */
module Secrecy {
  import opened Outcomes
  import opened Definitions
  import opened Statements
  import opened Columns
  import opened QueryBuilder
  import opened RecordsMapper
  import opened RecordValues
  import opened WriteStatements
  import opened Validity
  import opened Openness
  import opened Blindness
  import opened Reader
  import opened Writer
  import opened Serving
  import ActionUrls

  // --------------------------------------------------------------- blindness

  /** Two databases that differ only in what no valid resource shows. */
  ghost predicate Indistinct(definition: Definition, a: Database, b: Database) {
    var resources := IndexResources(definition.resources);
    Agree(Opens(resources), Tables(resources), a, b)
  }

  lemma PagesAreBlind(
    c: Context, definition: Definition, a: Database, b: Database, r: Resource, query: ListQuery,
    owner: Option<Ownership>, answer: Outcome<RecordList>)
    requires Serves(c, definition) && r in definition.resources && Indistinct(definition, a, b)
    requires owner.Some? ==> owner.value.field in r.fields
    requires MayPage(c, a, r, query, owner, answer)
    ensures MayPage(c, b, r, query, owner, answer)
  {
    hide Valid, CompiledRecords, Answers, Counted, PageOf, SelectIsOpen, CountIsOpen, Agree;
    var compiled := CompiledRecords(c.resources, r, query, owner, c.parses);
    if compiled.Ok? {
      var q := compiled.value;
      PageIsOpen(definition, r, query, owner, c.parses);
      var public, tables := Opens(c.resources), Tables(c.resources);
      CountsAlike(c.pg, public, tables, q.total.statement, q.total.values, a, b);
      var total := Counted(c.pg, a, q.total.statement, q.total.values);
      var rows :| Answers(c.pg, a, q.rows.statement, q.rows.values, rows) && answer == PageOf(c, r, q.rows.select, rows, total, query);
      AnswersAlike(c.pg, public, tables, q.rows.statement, q.rows.values, a, b, rows);
    }
  }

  lemma RecordsAreBlind(
    c: Context, definition: Definition, a: Database, b: Database, r: Resource, id: Value, answer: Outcome<Record>)
    requires Serves(c, definition) && r in definition.resources && Indistinct(definition, a, b)
    requires MayRead(c, a, r, id, answer)
    ensures MayRead(c, b, r, id, answer)
  {
    hide Valid, CompiledRecord, Answers, RecordFrom, SelectIsOpen, Agree;
    RecordIsOpen(definition, r, id);
    var q := CompiledRecord(c.resources, r, id).value;
    var rows :| Answers(c.pg, a, q.statement, q.values, rows) && answer == RecordFrom(c, r, q.select, rows);
    AnswersAlike(c.pg, Opens(c.resources), Tables(c.resources), q.statement, q.values, a, b, rows);
  }

  lemma OptionsAreBlind(
    c: Context, definition: Definition, a: Database, b: Database, key: Key, term: Option<string>,
    answer: Outcome<seq<Offer>>)
    requires Serves(c, definition) && Indistinct(definition, a, b)
    requires MayOffer(c, a, key, term, answer)
    ensures MayOffer(c, b, key, term, answer)
  {
    hide Valid, CompiledOptions, Answers, OffersFrom, SelectIsOpen, Agree;
    if key in c.resources {
      var r := c.resources[key];
      Declares(c, definition, key);
      OptionsAreOpen(definition, r, term);
      var q := CompiledOptions(r, term).value;
      var rows :| Answers(c.pg, a, q.statement, q.values, rows) && answer == OffersFrom(c, r, rows);
      AnswersAlike(c.pg, Opens(c.resources), Tables(c.resources), q.statement, q.values, a, b, rows);
    }
  }

  lemma FollowingIsBlind(
    c: Context, definition: Definition, a: Database, b: Database, target: Resource, x: Relationship, id: Value,
    found: seq<OutRow>, query: ListQuery, answer: Outcome<RecordList>)
    requires Serves(c, definition) && target in definition.resources && Indistinct(definition, a, b)
    requires MayFollow(c, a, target, x, id, found, query, answer)
    ensures MayFollow(c, b, target, x, id, found, query, answer)
  {
    hide Serves, Indistinct, MayPage, OwnerField, OwnerId;
    if found != [] && OwnerField(target, x).Ok? && !(x.kind == BelongsTo && OwnerId(x, id, found[0]) == Null) {
      var field := OwnerField(target, x).value;
      OwnerFieldIsDeclared(target, x);
      PagesAreBlind(c, definition, a, b, target, query, Some(Ownership(field, OwnerId(x, id, found[0]))), answer);
    }
  }

  lemma RelatedAreBlind(
    c: Context, definition: Definition, a: Database, b: Database, parent: Resource, target: Resource, x: Relationship,
    id: Value, query: ListQuery, answer: Outcome<RecordList>)
    requires Serves(c, definition) && parent in definition.resources && target in definition.resources
    requires Indistinct(definition, a, b)
    requires MayTravel(c, a, parent, target, x, id, query, answer)
    ensures MayTravel(c, b, parent, target, x, id, query, answer)
  {
    hide Valid, TravelField, CompiledLookup, Answers, MayFollow, SelectIsOpen, Agree;
    if Asked(parent, x, id).Ok? {
      var q, field := Asked(parent, x, id).value, TravelField(parent, x).value;
      TravelFieldIsDeclared(parent, x);
      LookupIsOpen(definition, parent, id, field);
      var found :|
        Answers(c.pg, a, q.statement, q.values, found) && MayFollow(c, a, target, x, id, found, query, answer);
      AnswersAlike(c.pg, Opens(c.resources), Tables(c.resources), q.statement, q.values, a, b, found);
      FollowingIsBlind(c, definition, a, b, target, x, id, found, query, answer);
    }
  }

  lemma RelatingIsBlind(
    c: Context, definition: Definition, a: Database, b: Database, key: Key, id: Value, relationship: Key,
    query: ListQuery, answer: Outcome<RecordList>)
    requires Serves(c, definition) && Indistinct(definition, a, b)
    requires MayRelate(c, a, key, id, relationship, query, answer)
    ensures MayRelate(c, b, key, id, relationship, query, answer)
  {
    hide Serves, Indistinct, MayTravel;
    if key in c.resources && RequireRelationship(c.resources[key].relationships, relationship).Ok? {
      var x := RequireRelationship(c.resources[key].relationships, relationship).value;
      if x.target in c.resources {
        Declares(c, definition, key);
        Declares(c, definition, x.target);
        RelatedAreBlind(c, definition, a, b, c.resources[key], c.resources[x.target], x, id, query, answer);
      }
    }
  }

  lemma {:induction false} AssignmentsAreDeclared(r: Resource, fields: seq<Field>, values: map<Key, Value>)
    requires forall f :: f in fields ==> f in r.fields
    ensures Assigns(r, AssignmentsFor(fields, values))
  {
    if fields != [] {
      var init := fields[..|fields| - 1];
      assert forall f :: f in init ==> f in fields;
      AssignmentsAreDeclared(r, init, values);
      assert fields[|fields| - 1] in fields;
    }
  }

  /** Whatever the compiler writes for a form, it writes in public columns. */
  lemma CompiledWriteIsOpen(
    c: Context, definition: Definition, r: Resource, mode: Mode, values: map<Key, Value>, id: Value)
    requires Serves(c, definition) && r in definition.resources
    requires Compiled(c, r, mode, AssignmentsFor(r.fields, values), id).Ok?
    ensures WriteIsOpen(Opens(c.resources), Tables(c.resources),
                        Compiled(c, r, mode, AssignmentsFor(r.fields, values), id).value.statement)
  {
    hide Valid, CompiledInsert, CompiledUpdate, AssignmentsFor, WriteIsOpen, Assigns;
    AssignmentsAreDeclared(r, r.fields, values);
    if mode == Creating {
      InsertIsOpen(definition, r, AssignmentsFor(r.fields, values));
    } else {
      UpdateIsOpen(definition, r, AssignmentsFor(r.fields, values), id);
    }
  }

  lemma FormsAreBlind(
    c: Context, definition: Definition, fits: (Field, Value) -> bool, a: Database, b: Database, r: Resource, mode: Mode,
    s: Submission, id: Value, defaults: Row)
    requires Serves(c, definition) && r in definition.resources && Indistinct(definition, a, b) && s.WellFormed()
    ensures WriteRecord(c, fits, a, r, mode, s, id, defaults).answer == WriteRecord(c, fits, b, r, mode, s, id, defaults).answer
    ensures Indistinct(definition, WriteRecord(c, fits, a, r, mode, s, id, defaults).db,
                       WriteRecord(c, fits, b, r, mode, s, id, defaults).db)
  {
    hide Valid, Compiled, Problems, AssignmentsFor, Execute, WriteIsOpen, Agree, WrittenFrom, OffersMode;
    var q := Compiled(c, r, mode, AssignmentsFor(r.fields, s.values), id);
    if q.Ok? {
      CompiledWriteIsOpen(c, definition, r, mode, s.values, id);
      WritesAlike(Opens(c.resources), Tables(c.resources), q.value.statement, q.value.values, defaults, a, b);
    }
  }

  lemma UpdatesAreBlind(
    c: Context, definition: Definition, a: Database, b: Database, r: Resource, key: Key, value: Value, id: Value)
    requires Serves(c, definition) && r in definition.resources && Indistinct(definition, a, b)
    ensures RunUpdate(c, a, r, key, value, id).answer == RunUpdate(c, b, r, key, value, id).answer
    ensures Indistinct(definition, RunUpdate(c, a, r, key, value, id).db, RunUpdate(c, b, r, key, value, id).db)
  {
    hide Valid, CompiledSetField, Execute, WriteIsOpen, Agree, ChangeFrom;
    if RequireField(r, key).Ok? {
      var field := RequireField(r, key).value;
      FieldsIndexed(r.fields);
      var q := CompiledSetField(r, field, value, id);
      if q.Ok? {
        SetFieldIsOpen(definition, r, field, value, id);
        assert |q.value.statement.columns| == |q.value.statement.slots| by { SetFieldPairs(r, field, value, id); }
        WritesAlike(Opens(c.resources), Tables(c.resources), q.value.statement, q.value.values, map[], a, b);
      }
    }
  }

  lemma SetFieldPairs(r: Resource, field: Field, value: Value, id: Value)
    requires CompiledSetField(r, field, value, id).Ok?
    ensures var w := CompiledSetField(r, field, value, id).value.statement; |w.columns| == |w.slots|
  {
  }

  lemma ActionsAreBlind(
    c: Context, t: Texts, definition: Definition, a: Database, b: Database, request: Request, answer: Answer)
    requires Serves(c, definition) && Indistinct(definition, a, b)
    requires request.RunAction? && MayAct(c, t, a, Acting(c, request), request.id, answer)
    ensures MayAct(c, t, b, Acting(c, request), request.id, answer)
    ensures Indistinct(definition, After(c, t, a, request), After(c, t, b, request))
  {
    hide Serves, Indistinct, RunUpdate, MayRead, RequireAction;
    if Acting(c, request).Ok? {
      var (r, action) := Acting(c, request).value;
      Declares(c, definition, request.resource);
      match action {
        case DbUpdate(_, field, value, _) =>
          UpdatesAreBlind(c, definition, a, b, r, field, value, request.id);
        case HttpCall(_, url, _) =>
          var record :|
            MayRead(c, a, r, request.id, record) &&
            answer.address == (match record
                               case Err(failure) => Err(failure)
                               case Ok(found) => ActionUrls.ActionUrl(r, url, found.values, t.write));
          RecordsAreBlind(c, definition, a, b, r, request.id, record);
      }
    }
  }

  /** What one database may answer, the other may; and still nothing tells them
      apart afterwards. */
  lemma AnswersAreBlind(
    c: Context, t: Texts, definition: Definition, a: Database, b: Database, request: Request, answer: Answer)
    requires Serves(c, definition) && Indistinct(definition, a, b) && request.WellFormed()
    requires MayAnswer(c, t, a, request, answer)
    ensures MayAnswer(c, t, b, request, answer)
    ensures Indistinct(definition, After(c, t, a, request), After(c, t, b, request))
  {
    hide Serves, Indistinct, MayPage, MayRead, MayOffer, MayRelate, WriteRecord, MayAct;
    match request {
      case ListRecords(key, query) =>
        if key in c.resources {
          Declares(c, definition, key);
          PagesAreBlind(c, definition, a, b, c.resources[key], query, None, answer.page);
        }
      case GetRecord(key, id) =>
        if key in c.resources {
          Declares(c, definition, key);
          RecordsAreBlind(c, definition, a, b, c.resources[key], id, answer.record);
        }
      case ListOptions(key, term) => OptionsAreBlind(c, definition, a, b, key, term, answer.offers);
      case ListRelated(key, id, relationship, query) =>
        RelatingIsBlind(c, definition, a, b, key, id, relationship, query, answer.page);
      case CreateRecord(key, s, defaults) =>
        if key in c.resources {
          Declares(c, definition, key);
          FormsAreBlind(c, definition, t.fits, a, b, c.resources[key], Creating, s, Null, defaults);
        }
      case UpdateRecord(key, id, s) =>
        if key in c.resources {
          Declares(c, definition, key);
          FormsAreBlind(c, definition, t.fits, a, b, c.resources[key], Updating, s, id, map[]);
        }
      case RunAction(_, _, _) => ActionsAreBlind(c, t, definition, a, b, request, answer);
    }
  }

  /** Non-interference, over whole runs: of two databases that differ only in
      sensitive columns, whatever one may answer to a run of lists, records,
      options, related lists, forms and actions, the other may answer too. */
  lemma {:induction false} RunsAreBlind(
    c: Context, t: Texts, definition: Definition, a: Database, b: Database, requests: seq<Request>, answers: seq<Answer>)
    requires Serves(c, definition) && Indistinct(definition, a, b)
    requires forall r :: r in requests ==> r.WellFormed()
    requires MayRun(c, t, a, requests, answers)
    ensures MayRun(c, t, b, requests, answers)
    decreases |requests|
  {
    hide Serves, Indistinct, MayAnswer, After;
    if requests != [] {
      AnswersAreBlind(c, t, definition, a, b, requests[0], answers[0]);
      RunsAreBlind(c, t, definition, After(c, t, a, requests[0]), After(c, t, b, requests[0]), requests[1..], answers[1..]);
    }
  }

  // ------------------------------------------------- what a write leaves alone

  /** Every row is still where it was, and what is not public of it is as it was. */
  ghost predicate RowsKept(open: set<Key>, before: seq<Row>, after: seq<Row>) {
    && |before| <= |after|
    && forall i, column :: 0 <= i < |before| && column !in open ==> Cell(after[i], column) == Cell(before[i], column)
  }

  ghost predicate SecretsKept(resources: Resources, before: Database, after: Database) {
    forall table :: RowsKept(Open(resources, table), RowsOf(before, table), RowsOf(after, table))
  }

  lemma OpenWriteKeepsSecrets(resources: Resources, w: Write, values: seq<Value>, defaults: Row, db: Database)
    requires |w.columns| == |w.slots| && WriteIsOpen(Opens(resources), Tables(resources), w)
    ensures SecretsKept(resources, db, Execute(db, w, values, defaults).0)
  {
    hide Execute, Open, Tables, RowsAfter, ItemsAreOpen, JoinsAreOpen;
    var after := Execute(db, w, values, defaults).0;
    forall table ensures RowsKept(Open(resources, table), RowsOf(db, table), RowsOf(after, table)) {
      TablesAfter(db, w, values, defaults, table);
      RowsOnlyGrow(RowsOf(db, table), w, values, defaults);
      forall i, column | 0 <= i < |RowsOf(db, table)| && column !in Open(resources, table)
        ensures i < |RowsOf(after, table)| && Cell(RowsOf(after, table)[i], column) == Cell(RowsOf(db, table)[i], column)
      {
        WritesTouchOnlyPublic(Opens(resources), Tables(resources), w, values, defaults, db, table, i, column);
      }
    }
  }

  lemma RowsOnlyGrow(rows: seq<Row>, w: Write, values: seq<Value>, defaults: Row)
    requires |w.columns| == |w.slots|
    ensures |RowsAfter(rows, w, values, defaults)| >= |rows|
  {
  }

  lemma RequestKeepsSecrets(c: Context, t: Texts, definition: Definition, db: Database, request: Request)
    requires Serves(c, definition) && request.WellFormed()
    ensures SecretsKept(c.resources, db, After(c, t, db, request))
  {
    hide Valid, Compiled, Problems, AssignmentsFor, Execute, WriteIsOpen, WrittenFrom, OffersMode, CompiledSetField, ChangeFrom, Open, Tables, RequireAction;
    if (request.CreateRecord? || request.UpdateRecord?) && request.resource in c.resources {
      var r := c.resources[request.resource];
      var mode, id, defaults :=
        if request.CreateRecord? then Creating else Updating,
        if request.CreateRecord? then Null else request.id,
        if request.CreateRecord? then request.defaults else map[];
      var q := Compiled(c, r, mode, AssignmentsFor(r.fields, request.submission.values), id);
      if q.Ok? {
        Declares(c, definition, request.resource);
        CompiledWriteIsOpen(c, definition, r, mode, request.submission.values, id);
        OpenWriteKeepsSecrets(c.resources, q.value.statement, q.value.values, defaults, db);
      }
    } else if request.RunAction? && Acting(c, request).Ok? && Acting(c, request).value.1.DbUpdate? {
      var (r, action) := Acting(c, request).value;
      Declares(c, definition, request.resource);
      if RequireField(r, action.field).Ok? {
        var field := RequireField(r, action.field).value;
        FieldsIndexed(r.fields);
        var q := CompiledSetField(r, field, action.value, request.id);
        if q.Ok? {
          SetFieldIsOpen(definition, r, field, action.value, request.id);
          SetFieldPairs(r, field, action.value, request.id);
          OpenWriteKeepsSecrets(c.resources, q.value.statement, q.value.values, map[], db);
        }
      }
    }
  }

  /** The tables after each request of a run. */
  function AfterAll(c: Context, t: Texts, db: Database, requests: seq<Request>): Database
    requires forall r :: r in requests ==> r.WellFormed()
    decreases |requests|
  {
    if requests == [] then db else AfterAll(c, t, After(c, t, db, requests[0]), requests[1..])
  }

  /** No run of requests changes a sensitive column of a row that was there. */
  lemma {:induction false} RunsKeepSecrets(c: Context, t: Texts, definition: Definition, db: Database, requests: seq<Request>)
    requires Serves(c, definition) && forall r :: r in requests ==> r.WellFormed()
    ensures SecretsKept(c.resources, db, AfterAll(c, t, db, requests))
    decreases |requests|
  {
    if requests == [] {
      hide Open;
    } else {
      hide Serves, After, SecretsKept;
      var next := After(c, t, db, requests[0]);
      RequestKeepsSecrets(c, t, definition, db, requests[0]);
      RunsKeepSecrets(c, t, definition, next, requests[1..]);
    }
  }
}
