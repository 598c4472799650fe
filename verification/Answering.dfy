/** What each request is answered with and leaves behind, said of the definition,
    the tables and the request alone
    (packages/cli/src/connector/dispatch.ts:69-100). */
module Answering {
  import opened Outcomes
  import opened Definitions
  import opened Statements
  import opened Columns
  import opened QueryBuilder
  import opened RecordsMapper
  import opened RecordValues
  import opened WriteStatements
  import opened ActionUrls
  import opened Validity
  import opened Joins
  import opened Meaning
  import opened Reader
  import opened ReadBack
  import opened Serving
  import Openness
  import Paging
  import Picking
  import Servable
  import WriteBack
  import Relating
  import Writer

  /** The same rows in every table. */
  ghost predicate Stands(before: Database, after: Database) {
    forall t :: RowsOf(after, t) == RowsOf(before, t)
  }

  /** A key that names no row of the resource's table. */
  ghost predicate NamesNone(db: Database, r: Resource, id: Value) {
    forall i: nat :: !NamesRow(db, r, id, i)
  }

  lemma StandingServes(c: Context, definition: Definition, db: Database, r: Resource)
    requires Standing(c, definition, db, r)
    ensures Serves(c, definition) && r.key in c.resources && c.resources[r.key] == r
  {
    hide ValidResource, KeysHold, NavigationMatches;
    ResourceByKey(definition.resources, r);
  }

  // ---------------------------------------------------------- what is not there

  /** How an answer says that what was asked for is not there. */
  function NotThere(request: Request): Answer {
    match request
    case ListRecords(_, _) => Listed(Err(NotFound))
    case GetRecord(_, _) => Got(Err(NotFound))
    case ListOptions(_, _) => Offered(Err(NotFound))
    case ListRelated(_, _, _, _) => Listed(Err(NotFound))
    case CreateRecord(_, _, _) => Saved(Err(NotFound))
    case UpdateRecord(_, _, _) => Saved(Err(NotFound))
    case RunAction(_, _, _) => Moved(Err(NotFound))
  }

  /** Nothing is done with a resource the definition does not declare. */
  lemma AnUnknownResourceIsNotFound(c: Context, t: Texts, db: Database, request: Request, answer: Answer)
    requires request.WellFormed() && MayAnswer(c, t, db, request, answer)
    requires request.resource !in c.resources
    ensures answer == NotThere(request) && After(c, t, db, request) == db
  {
  }

  // ------------------------------------------------------------------- actions

  lemma {:induction false} ActionByKey(actions: seq<Action>, a: Action)
    requires DistinctKeys(ActionKeys(actions)) && a in actions
    ensures RequireAction(actions, a.key) == Ok(a)
  {
    var i :| 0 <= i < |actions| && actions[i] == a;
    assert ActionKeys(actions)[i] == a.key;
    if i > 0 {
      assert ActionKeys(actions)[0] != ActionKeys(actions)[i];
      DistinctAfter(actions);
      assert actions[1..][i - 1] == a;
      ActionByKey(actions[1..], a);
    }
  }

  lemma DistinctAfter(actions: seq<Action>)
    requires actions != [] && DistinctKeys(ActionKeys(actions))
    ensures DistinctKeys(ActionKeys(actions[1..]))
  {
    var all, rest := ActionKeys(actions), ActionKeys(actions[1..]);
    forall i, j | 0 <= i < j < |rest| ensures rest[i] != rest[j] {
      assert all[i + 1] != all[j + 1];
    }
  }

  lemma {:induction false} NoActionByKey(actions: seq<Action>, key: Key)
    requires forall a :: a in actions ==> a.key != key
    ensures RequireAction(actions, key) == Err(NotFound)
  {
    if actions != [] {
      assert actions[0].key != key;
      NoActionByKey(actions[1..], key);
    }
  }

  lemma ItsOwnAction(c: Context, definition: Definition, db: Database, r: Resource, a: Action, id: Value)
    requires Standing(c, definition, db, r) && a in r.actions
    ensures Acting(c, RunAction(r.key, id, a.key)) == Ok((r, a))
  {
    hide Standing, Serves, ValidResource;
    StandingServes(c, definition, db, r);
    ResourceIsValid(c, definition, db, r);
    ActionByKey(r.actions, a);
  }

  /** What the request comes to is what the action it names comes to. */
  lemma ItsOwnRun(
    c: Context, t: Texts, definition: Definition, db: Database, r: Resource, a: Action, id: Value, answer: Answer)
    requires Standing(c, definition, db, r) && a in r.actions
    requires MayAnswer(c, t, db, RunAction(r.key, id, a.key), answer)
    ensures a.DbUpdate? ==>
      && answer == Moved(Writer.RunUpdate(c, db, r, a.field, a.value, id).answer)
      && After(c, t, db, RunAction(r.key, id, a.key)) == Writer.RunUpdate(c, db, r, a.field, a.value, id).db
    ensures a.HttpCall? ==>
      && answer.Called? && Writer.MayCall(c, db, r, a.url, id, t.write, answer.address)
      && After(c, t, db, RunAction(r.key, id, a.key)) == db
  {
    hide Standing, Acting, Writer.RunUpdate, Writer.MayCall, MayList, MayGet, MayOffer, MayRelate, Saving;
    ItsOwnAction(c, definition, db, r, a, id);
  }

  lemma ResourceIsValid(c: Context, definition: Definition, db: Database, r: Resource)
    requires Standing(c, definition, db, r)
    ensures ValidResource(r, c.resources) && DistinctKeys(ActionKeys(r.actions)) && DistinctKeys(RelationshipKeys(r.relationships))
  {
    hide ValidAction, ValidTable, ValidDetail, ValidRelationship, KeysHold, NavigationMatches;
    var i :| 0 <= i < |definition.resources| && definition.resources[i] == r;
  }

  /** A `dbUpdate`, asked for by its key: the one column it names, of the one row
      the request names, takes the literal the definition states. Nothing else
      changes, and both sides of it are accounted for. */
  lemma ADbUpdateSetsItsField(
    c: Context, t: Texts, definition: Definition, db: Database, r: Resource, a: Action, id: Value, i: nat, answer: Answer)
    requires Standing(c, definition, db, r) && NamesRow(db, r, id, i) && a in r.actions && a.DbUpdate?
    requires MayAnswer(c, t, db, RunAction(r.key, id, a.key), answer)
    ensures WroteOne(db, r.table, i, map[a.field := a.value], After(c, t, db, RunAction(r.key, id, a.key)))
    ensures exists f :: f in r.fields && f.key == a.field && answer == Moved(Ok(Writer.Change(
              map[a.field := ToValue(c.driver, f.kind, Cell(RowsOf(db, r.table)[i], a.field))],
              map[a.field := ToValue(c.driver, f.kind, a.value)])))
  {
    hide Standing, MayAnswer, After, Writer.RunUpdate, WroteOne, NamesRow, RequireField;
    ItsOwnRun(c, t, definition, db, r, a, id, answer);
    AnActionIsWhatItSays(c, definition, db, r, a, id, i);
    DeclaredField(r, a.field);
  }

  lemma DeclaredField(r: Resource, key: Key)
    requires RequireField(r, key).Ok?
    ensures RequireField(r, key).value in r.fields && RequireField(r, key).value.key == key
  {
    FieldsIndexed(r.fields);
  }

  /** An update whose key names no row writes none, and is answered by none. */
  lemma NamingNoneWritesNone(db: Database, w: Write, values: seq<Value>)
    requires w.Update? && |w.columns| == |w.slots|
    requires forall i :: 0 <= i < |RowsOf(db, w.table)| ==>
               !Same(Cell(RowsOf(db, w.table)[i], w.identity), Bound(values, w.keySlot))
    ensures Stands(db, Execute(db, w, values, map[]).0) && Execute(db, w, values, map[]).1 == []
  {
    hide Execute, Statements.Written, Changed, Assigned;
    var rows := RowsOf(db, w.table);
    WriteBack.NoneWritten(rows, w, values);
    WriteBack.NothingAnswers(db, w, values);
    assert Changed(rows, w, values) == rows;
    forall t ensures RowsOf(Execute(db, w, values, map[]).0, t) == RowsOf(db, t) {
      Openness.TablesAfter(db, w, values, map[], t);
    }
  }

  lemma NoneIsNamed(db: Database, r: Resource, id: Value)
    requires NamesNone(db, r, id)
    ensures forall i :: 0 <= i < |RowsOf(db, r.table)| ==> !Same(Cell(RowsOf(db, r.table)[i], r.primaryKey), id)
  {
    forall i | 0 <= i < |RowsOf(db, r.table)| ensures !Same(Cell(RowsOf(db, r.table)[i], r.primaryKey), id) {
      assert !NamesRow(db, r, id, i);
    }
  }

  /** And where the request names no row, nothing changes and it is told so. */
  lemma ADbUpdateOfNothing(
    c: Context, t: Texts, definition: Definition, db: Database, r: Resource, a: Action, id: Value, answer: Answer)
    requires Standing(c, definition, db, r) && NamesNone(db, r, id) && a in r.actions && a.DbUpdate?
    requires MayAnswer(c, t, db, RunAction(r.key, id, a.key), answer)
    ensures answer == Moved(Err(NotFound)) && Stands(db, After(c, t, db, RunAction(r.key, id, a.key)))
  {
    ItsOwnRun(c, t, definition, db, r, a, id, answer);
    hide MayAnswer, After;
    Servable.UpdateActionIsServed(definition, r, a, id);
    KeyIsUnique(c, definition, db, r);
    NoneIsNamed(db, r, id);
    hide Standing, NamesRow, RequireField, IdentityField, Execute, Stands;
    var q := CompiledSetField(r, RequireField(r, a.field).value, a.value, id).value;
    NamingNoneWritesNone(db, q.statement, q.values);
  }

  /** An `httpCall`, asked for by its key, changes no table. It goes to its own
      template, filled from what the one row the request names holds now; and
      nowhere, when that row cannot fill it. */
  lemma AnHttpCallIsFilledFromItsRecord(
    c: Context, t: Texts, definition: Definition, db: Database, r: Resource, a: Action, id: Value, i: nat, answer: Answer)
    requires Standing(c, definition, db, r) && NamesRow(db, r, id, i) && a in r.actions && a.HttpCall?
    requires MayAnswer(c, t, db, RunAction(r.key, id, a.key), answer)
    ensures After(c, t, db, RunAction(r.key, id, a.key)) == db
    ensures var row := RowsOf(db, r.table)[i];
            var values, pieces := Shown(c.driver, db, c.resources, row, r.fields), Pieces(a.url);
            answer == Called(if Servable.Filled(pieces, values) then Ok(Rebuilt(ActionUrls.Written(pieces, values, t.write)))
                             else Err(InvalidQuery))
  {
    ItsOwnRun(c, t, definition, db, r, a, id, answer);
    hide MayAnswer, After, Standing, NamesRow, MayRead, Pieces, Servable.Filled, Rebuilt, Shown, Resolve;
    var record: Outcome<Record> :| MayRead(c, db, r, id, record) &&
      answer.address == (match record
                         case Err(failure) => Err(failure)
                         case Ok(found) => ActionUrl(r, a.url, found.values, t.write));
    AReadFindsItsRow(c, definition, db, r, id, i, record);
    var values := Shown(c.driver, db, c.resources, RowsOf(db, r.table)[i], r.fields);
    assert Valid(definition) && r in definition.resources by { IsDeclared(c, definition, db, r); }
    Servable.CallActionIsServed(definition, r, a, values, t.write);
    if Servable.Filled(Pieces(a.url), values) {
      ResolvingFillsTheTemplate(r, Pieces(a.url), values, t.write);
    }
  }

  lemma IsDeclared(c: Context, definition: Definition, db: Database, r: Resource)
    requires Standing(c, definition, db, r)
    ensures Valid(definition) && r in definition.resources
  {
    hide Valid, KeysHold;
  }

  lemma AnHttpCallOfNothing(
    c: Context, t: Texts, definition: Definition, db: Database, r: Resource, a: Action, id: Value, answer: Answer)
    requires Standing(c, definition, db, r) && NamesNone(db, r, id) && a in r.actions && a.HttpCall?
    requires MayAnswer(c, t, db, RunAction(r.key, id, a.key), answer)
    ensures answer == Called(Err(NotFound)) && After(c, t, db, RunAction(r.key, id, a.key)) == db
  {
    hide MayAnswer, After, Standing, NamesRow, MayRead, ActionUrl;
    ItsOwnRun(c, t, definition, db, r, a, id, answer);
    var record: Outcome<Record> :| MayRead(c, db, r, id, record) &&
      answer.address == (match record
                         case Err(failure) => Err(failure)
                         case Ok(found) => ActionUrl(r, a.url, found.values, t.write));
    Relating.AReadOfNothing(c, definition, db, r, id, record);
  }

  /** A key that no action has runs nothing. */
  lemma AnUnknownActionIsNotFound(
    c: Context, t: Texts, definition: Definition, db: Database, r: Resource, key: Key, id: Value, answer: Answer)
    requires Standing(c, definition, db, r) && forall a :: a in r.actions ==> a.key != key
    requires MayAnswer(c, t, db, RunAction(r.key, id, key), answer)
    ensures answer == Moved(Err(NotFound)) && After(c, t, db, RunAction(r.key, id, key)) == db
  {
    hide Standing, Serves, MayList, MayGet, MayOffer, MayRelate, Saving;
    StandingServes(c, definition, db, r);
    NoActionByKey(r.actions, key);
  }

  // -------------------------------------------------------------------- writes

  function Mode(request: Request): RecordValues.Mode
    requires request.CreateRecord? || request.UpdateRecord?
  {
    if request.CreateRecord? then Creating else Updating
  }

  /** What the definition says of the resource: whether this write is one of its. */
  predicate Offers(r: Resource, request: Request) {
    (request.CreateRecord? ==> r.creates) && (request.UpdateRecord? ==> r.updates)
  }

  /** The write a request asks for, with what an update carries none of left out. */
  function Wrote(c: Context, t: Texts, db: Database, r: Resource, request: Request): Writer.Effect<Writer.Written>
    requires request.WellFormed() && (request.CreateRecord? || request.UpdateRecord?)
  {
    Writer.WriteRecord(
      c, t.fits, db, r, Mode(request), request.submission, if request.UpdateRecord? then request.id else Null,
      if request.CreateRecord? then request.defaults else map[])
  }

  lemma ItsOwnWrite(
    c: Context, t: Texts, definition: Definition, db: Database, r: Resource, request: Request, answer: Answer)
    requires Standing(c, definition, db, r) && request.resource == r.key && request.WellFormed()
    requires (request.CreateRecord? || request.UpdateRecord?) && MayAnswer(c, t, db, request, answer)
    ensures answer == Saved(Wrote(c, t, db, r, request).answer) && After(c, t, db, request) == Wrote(c, t, db, r, request).db
  {
    hide Standing, Serves, Writer.WriteRecord, MayList, MayGet, MayOffer, MayRelate, MayAct;
    StandingServes(c, definition, db, r);
  }

  /** A write the resource does not offer is refused, whatever it carries, and
      reaches no table. */
  lemma AWriteNotOfferedIsRefused(
    c: Context, t: Texts, definition: Definition, db: Database, r: Resource, request: Request, answer: Answer)
    requires Standing(c, definition, db, r) && request.resource == r.key && request.WellFormed()
    requires (request.CreateRecord? || request.UpdateRecord?) && !Offers(r, request)
    requires MayAnswer(c, t, db, request, answer)
    ensures answer == Saved(Err(WriteRefused)) && After(c, t, db, request) == db
  {
    hide Standing, MayAnswer, After, Problems, Execute;
    ItsOwnWrite(c, t, definition, db, r, request, answer);
  }

  lemma {:induction false} RefusalsAreTheProblems(problems: seq<Problem>, k: Key)
    ensures k in Writer.Refusals(problems) <==> exists p :: p in problems && Names(p, k)
  {
    if problems != [] {
      RefusalsAreTheProblems(problems[1..], k);
      assert problems == [problems[0]] + problems[1..];
      assert Names(problems[0], k) ==> problems[0] in problems;
      if p :| p in problems && Names(p, k) {
        assert p == problems[0] || p in problems[1..];
      }
    }
  }

  /** One that is offered, of a submission the resource does not accept, names
      every key at fault and no other, and reaches no table. */
  lemma AFaultyWriteIsRefused(
    c: Context, t: Texts, definition: Definition, db: Database, r: Resource, request: Request, answer: Answer)
    requires Standing(c, definition, db, r) && request.resource == r.key && request.WellFormed()
    requires (request.CreateRecord? || request.UpdateRecord?) && Offers(r, request)
    requires !Acceptable(r, Mode(request), request.submission, t.fits)
    requires MayAnswer(c, t, db, request, answer)
    ensures After(c, t, db, request) == db
    ensures answer.Saved? && answer.saved.Err? && answer.saved.failure.ValidationFailed?
    ensures forall k :: k in answer.saved.failure.fields <==> AtFault(r, Mode(request), request.submission, t.fits, k)
  {
    ItsOwnWrite(c, t, definition, db, r, request, answer);
    hide Standing, MayAnswer, After;
    var s, mode := request.submission, Mode(request);
    AcceptedExactlyWhenAcceptable(r, mode, s, t.fits);
    forall k ensures k in Writer.Refusals(Problems(r, mode, s, t.fits)) <==> AtFault(r, mode, s, t.fits, k) {
      RefusalsAreTheProblems(Problems(r, mode, s, t.fits), k);
      ProblemsNameTheFaulty(r, mode, s, t.fits, k);
    }
    hide Problems, Execute, Acceptable, AtFault, Writer.Refusals;
  }

  /** An accepted update of the one row the request names: its submitted columns
      and no others, answered with the row as it now stands, and accounted for on
      both sides. */
  lemma AnUpdateSetsWhatWasSubmitted(
    c: Context, t: Texts, definition: Definition, db: Database, r: Resource, id: Value, s: Submission, i: nat, answer: Answer)
    requires Standing(c, definition, db, r) && NamesRow(db, r, id, i) && r.updates
    requires s.WellFormed() && Acceptable(r, Updating, s, t.fits)
    requires MayAnswer(c, t, db, UpdateRecord(r.key, id, s), answer)
    ensures var after := After(c, t, db, UpdateRecord(r.key, id, s));
      && WroteOne(db, r.table, i, s.values, after)
      && answer.Saved? && answer.saved.Ok?
      && var row, written := RowsOf(db, r.table)[i], answer.saved.value;
      && written.record == RecordOf(c.driver, db, c.resources, RowsOf(after, r.table)[i], r.fields, r.primaryKey)
      && written.before.Some? && Reads(c.driver, r, s.values, row, written.before.value)
      && Reads(c.driver, r, s.values, RowsOf(after, r.table)[i], written.after)
  {
    hide Standing, MayAnswer, After, Problems, Acceptable, Writer.WriteRecord, WroteOne, NamesRow, Reads, RecordOf;
    ItsOwnWrite(c, t, definition, db, r, UpdateRecord(r.key, id, s), answer);
    AcceptedExactlyWhenAcceptable(r, Updating, s, t.fits);
    AnUpdateIsWhatItSays(c, definition, db, r, s, t.fits, id, i);
  }

  /** And of none: nothing changes, and it is told so. */
  lemma AnUpdateOfNothingIsNotFound(
    c: Context, t: Texts, definition: Definition, db: Database, r: Resource, id: Value, s: Submission, answer: Answer)
    requires Standing(c, definition, db, r) && NamesNone(db, r, id) && r.updates
    requires s.WellFormed() && Acceptable(r, Updating, s, t.fits)
    requires MayAnswer(c, t, db, UpdateRecord(r.key, id, s), answer)
    ensures answer == Saved(Err(NotFound)) && Stands(db, After(c, t, db, UpdateRecord(r.key, id, s)))
  {
    hide MayAnswer, After, Acceptable;
    ItsOwnWrite(c, t, definition, db, r, UpdateRecord(r.key, id, s), answer);
    AcceptedExactlyWhenAcceptable(r, Updating, s, t.fits);
    NothingUpdated(c, t.fits, definition, db, r, id, s);
  }

  lemma NothingUpdated(
    c: Context, fits: (Field, Value) -> bool, definition: Definition, db: Database, r: Resource, id: Value, s: Submission)
    requires Standing(c, definition, db, r) && NamesNone(db, r, id) && r.updates
    requires s.WellFormed() && Problems(r, Updating, s, fits) == []
    ensures var effect := Writer.WriteRecord(c, fits, db, r, Updating, s, id, map[]);
            effect.answer == Err(NotFound) && Stands(db, effect.db)
  {
    hide NamesRow, ValidResource;
    IsDeclared(c, definition, db, r);
    KeyIsUnique(c, definition, db, r);
    NoneIsNamed(db, r, id);
    hide Standing, NamesNone, Execute, CompiledUpdate, Writer.WrittenFrom;
    Servable.WritesAreServed(definition, r, Updating, s, fits, id);
    var assignments := AssignmentsFor(r.fields, s.values);
    hide Standing, Problems, Execute, NamesRow, AssignmentsFor, Writer.WrittenFrom, CompiledUpdate;
    NothingWritten(c, r, assignments, id);
    var q := CompiledUpdate(c.resources, r, assignments, id).value;
    forall table ensures RowsOf(Execute(db, q.statement, q.values, map[]).0, table) == RowsOf(db, table) {
      WriteBack.AnUpdateOfNothingChangesNothing(c.resources, r, assignments, id, db, table);
    }
    WriteBack.AnUpdateOfNothingChangesNothing(c.resources, r, assignments, id, db, r.table);
  }

  /** An answer of no rows is a record that is not there. */
  lemma NothingWritten(c: Context, r: Resource, assignments: seq<Assignment>, id: Value)
    requires CompiledUpdate(c.resources, r, assignments, id).Ok?
    requires exists f :: f in r.fields && !f.sensitive && f.key == r.primaryKey
    ensures var q := CompiledUpdate(c.resources, r, assignments, id).value;
            Writer.WrittenFrom(c, r, Updating, q, assignments, []) == Err(NotFound)
  {
    hide Selected, RefuseUnwritable, IdentityField, IdentityEntry, ReturningList, Values;
    var f :| f in r.fields && !f.sensitive && f.key == r.primaryKey;
    Paging.IdentityIsSelected(r.fields, c.resources, f);
  }

  /** An accepted create: a row more, of what was submitted over what the table
      gives; answered with its record, unless the table left it without a key. */
  lemma ACreateAddsWhatWasSubmitted(
    c: Context, t: Texts, definition: Definition, db: Database, r: Resource, s: Submission, defaults: Row, answer: Answer)
    returns (row: Row)
    requires Standing(c, definition, db, r) && r.creates
    requires s.WellFormed() && Acceptable(r, Creating, s, t.fits)
    requires MayAnswer(c, t, db, CreateRecord(r.key, s, defaults), answer)
    ensures AddedOne(db, r.table, row, After(c, t, db, CreateRecord(r.key, s, defaults))) && Took(defaults, s.values, row)
    ensures answer.Saved? && (answer.saved.Ok? <==> Cell(row, r.primaryKey) != Null)
    ensures answer.saved.Err? ==> answer == Saved(Err(Bug))
    ensures answer.saved.Ok? ==>
      && answer.saved.value.record == RecordOf(c.driver, db, c.resources, row, r.fields, r.primaryKey)
      && answer.saved.value.before == None && Reads(c.driver, r, s.values, row, answer.saved.value.after)
  {
    hide Standing, MayAnswer, After, Problems, Acceptable, Writer.WriteRecord, AddedOne, Took, Reads, RecordOf;
    ItsOwnWrite(c, t, definition, db, r, CreateRecord(r.key, s, defaults), answer);
    AcceptedExactlyWhenAcceptable(r, Creating, s, t.fits);
    row := NewRow(r, s, defaults);
    ACreateIsWhatItSays(c, definition, db, r, s, t.fits, defaults);
  }

  // --------------------------------------------------------------------- reads

  lemma ItsOwnRead(c: Context, t: Texts, definition: Definition, db: Database, r: Resource, id: Value, answer: Answer)
    requires Standing(c, definition, db, r) && MayAnswer(c, t, db, GetRecord(r.key, id), answer)
    ensures answer.Got? && MayRead(c, db, r, id, answer.record) && After(c, t, db, GetRecord(r.key, id)) == db
  {
    hide Standing, Serves, MayRead;
    StandingServes(c, definition, db, r);
  }

  /** A record, asked for by its key. */
  lemma AGetReadsItsRow(
    c: Context, t: Texts, definition: Definition, db: Database, r: Resource, id: Value, i: nat, answer: Answer)
    requires Standing(c, definition, db, r) && NamesRow(db, r, id, i)
    requires MayAnswer(c, t, db, GetRecord(r.key, id), answer)
    ensures answer == Got(Ok(RecordOf(c.driver, db, c.resources, RowsOf(db, r.table)[i], r.fields, r.primaryKey)))
    ensures After(c, t, db, GetRecord(r.key, id)) == db
  {
    hide Standing, MayAnswer, After, MayRead, NamesRow, RecordOf;
    ItsOwnRead(c, t, definition, db, r, id, answer);
    AReadFindsItsRow(c, definition, db, r, id, i, answer.record);
  }

  lemma AGetOfNothing(c: Context, t: Texts, definition: Definition, db: Database, r: Resource, id: Value, answer: Answer)
    requires Standing(c, definition, db, r) && NamesNone(db, r, id)
    requires MayAnswer(c, t, db, GetRecord(r.key, id), answer)
    ensures answer == Got(Err(NotFound))
  {
    hide Standing, MayAnswer, MayRead, NamesRow;
    ItsOwnRead(c, t, definition, db, r, id, answer);
    Relating.AReadOfNothing(c, definition, db, r, id, answer.record);
  }

  /** A list, asked for by its resource's key: one slice of the rows the request is
      for, in the order it names, and the count of them all. */
  lemma AListIsAPage(
    c: Context, t: Texts, definition: Definition, db: Database, r: Resource, query: ListQuery, answer: Answer)
    returns (perm: seq<nat>)
    requires Paging.Sound(c, db, definition, r, None) && Servable.Askable(r, query, c.parses)
    requires MayAnswer(c, t, db, ListRecords(r.key, query), answer)
    ensures After(c, t, db, ListRecords(r.key, query)) == db
    ensures ListFields(r).Ok? && Ordered(r, query).Ok?
    ensures var rows := Paging.WantedRows(c, db, r, query, None);
      && Paging.AreTheWanted(c.pg, r, query, None, RowsOf(db, r.table), rows)
      && Paging.InOrder(c.pg, rows, Ordered(r, query).value, perm)
      && answer == Listed(Ok(RecordList(
           Paging.AllRecords(c, db, r, rows, perm)[Paging.Start(query, |rows|)..Paging.Stop(query, |rows|)],
           |rows|, query.page, query.pageSize)))
  {
    hide Standing, Serves, Paging.Sound, Servable.Askable, MayPage, ListFields, Ordered, Paging.InOrder,
      Paging.AllRecords, Paging.WantedRows, Paging.Start, Paging.Stop, Paging.AreTheWanted;
    SoundStands(c, definition, db, r);
    StandingServes(c, definition, db, r);
    perm := Paging.APageIsASlice(c, db, definition, r, query, None, answer.page);
    Paging.WantedRowsAreTheWanted(c, db, r, query, None);
  }

  lemma SoundStands(c: Context, definition: Definition, db: Database, r: Resource)
    requires Paging.Sound(c, db, definition, r, None)
    ensures Standing(c, definition, db, r)
  {
    hide Valid, KeysHold;
  }

  /** One it does not offer is refused as a query. */
  lemma AListNotOfferedIsRefused(
    c: Context, t: Texts, definition: Definition, db: Database, r: Resource, query: ListQuery, answer: Answer)
    requires Paging.Sound(c, db, definition, r, None) && !Servable.Askable(r, query, c.parses)
    requires MayAnswer(c, t, db, ListRecords(r.key, query), answer)
    ensures answer == Listed(Err(InvalidQuery))
  {
    hide Standing, Serves, Paging.Sound, Servable.Askable, MayPage;
    SoundStands(c, definition, db, r);
    StandingServes(c, definition, db, r);
    Relating.APageIsServed(c, db, definition, r, query, None, answer.page);
  }

  /** A picker, asked for by its resource's key. */
  lemma APickerIsOffered(
    c: Context, t: Texts, definition: Definition, db: Database, r: Resource, term: Option<string>, answer: Answer)
    returns (perm: seq<nat>)
    requires Paging.Sound(c, db, definition, r, None)
    requires MayAnswer(c, t, db, ListOptions(r.key, term), answer)
    ensures LabelField(r).Ok? && answer.Offered? && answer.offers.Ok?
    ensures var named, offers := LabelField(r).value, answer.offers.value;
            var rows := Picking.Matched(c.pg, named, term, RowsOf(db, r.table));
      && Paging.InOrder(c.pg, rows, Picking.ByName(named.key, r.primaryKey), perm)
      && |offers| == Clip(OPTIONS_LIMIT, |rows|)
      && forall i :: 0 <= i < |offers| ==> offers[i] == Picking.OfferFor(c.driver, r, named, rows[perm[i]])
  {
    hide Paging.Sound, MayOffer, Paging.InOrder, Picking.Matched, Picking.ByName, Picking.OfferFor, LabelField;
    perm := Picking.APickerOffersTheNamed(c, definition, db, r, term, answer.offers);
  }

  // ------------------------------------------------------------ related lists

  lemma {:induction false} RelationshipByKey(relationships: seq<Relationship>, x: Relationship)
    requires DistinctKeys(RelationshipKeys(relationships)) && x in relationships
    ensures RequireRelationship(relationships, x.key) == Ok(x)
  {
    var i :| 0 <= i < |relationships| && relationships[i] == x;
    var all := RelationshipKeys(relationships);
    assert all[i] == x.key;
    if i > 0 {
      assert all[0] != all[i];
      var rest := RelationshipKeys(relationships[1..]);
      forall j, k | 0 <= j < k < |rest| ensures rest[j] != rest[k] {
        assert all[j + 1] != all[k + 1];
      }
      assert relationships[1..][i - 1] == x;
      RelationshipByKey(relationships[1..], x);
    }
  }

  lemma {:induction false} NoRelationshipByKey(relationships: seq<Relationship>, key: Key)
    requires forall x :: x in relationships ==> x.key != key
    ensures RequireRelationship(relationships, key) == Err(NotFound)
  {
    if relationships != [] {
      assert relationships[0].key != key;
      NoRelationshipByKey(relationships[1..], key);
    }
  }

  /** A relationship, asked for by its key, is travelled to its own target. */
  lemma ItsOwnRelationship(
    c: Context, t: Texts, definition: Definition, db: Database, r: Resource, x: Relationship, id: Value, query: ListQuery,
    answer: Answer)
    requires Standing(c, definition, db, r) && x in r.relationships
    requires MayAnswer(c, t, db, ListRelated(r.key, id, x.key, query), answer)
    ensures x.target in c.resources && c.resources[x.target].key == x.target
    ensures answer.Listed? && MayTravel(c, db, r, c.resources[x.target], x, id, query, answer.page)
  {
    hide Standing, Serves, ValidResource, MayTravel, MayList, MayGet, MayOffer, Saving, MayAct;
    StandingServes(c, definition, db, r);
    ResourceIsValid(c, definition, db, r);
    RelationshipByKey(r.relationships, x);
    TargetIsThere(c, definition, db, r, x);
  }

  lemma TargetIsThere(c: Context, definition: Definition, db: Database, r: Resource, x: Relationship)
    requires Standing(c, definition, db, r) && x in r.relationships
    ensures x.target in c.resources && c.resources[x.target].key == x.target
  {
    ResourceIsValid(c, definition, db, r);
    ResourcesIndexed(definition.resources);
    hide Valid, KeysHold, ValidTable, ValidDetail, ValidAction;
    var k :| 0 <= k < |r.relationships| && r.relationships[k] == x;
    assert ValidRelationship(r.relationships[k], r, c.resources);
  }

  /** A list of what the record points at, or of what points at it. */
  lemma ARelatedListIsNarrowed(
    c: Context, t: Texts, definition: Definition, db: Database, r: Resource, x: Relationship, id: Value, query: ListQuery,
    i: nat, answer: Answer)
    requires Standing(c, definition, db, r) && NamesRow(db, r, id, i) && x in r.relationships
    requires MayAnswer(c, t, db, ListRelated(r.key, id, x.key, query), answer)
    ensures x.target in c.resources && answer.Listed?
    ensures var target, owner := c.resources[x.target], Relating.Narrows(r, x, RowsOf(db, r.table)[i], id);
      if x.kind == BelongsTo && owner == Null
      then answer == Listed(Ok(RecordList([], 0, query.page, query.pageSize)))
      else exists f ::
        && f in target.fields && !f.sensitive
        && f.key == (if x.kind == BelongsTo then target.primaryKey else x.foreignKey)
        && MayPage(c, db, target, query, Some(Ownership(f, owner)), answer.page)
  {
    ItsOwnRelationship(c, t, definition, db, r, x, id, query, answer);
    hide Standing, MayAnswer, MayTravel, MayPage, NamesRow;
    Relating.ARelatedListIsTheOwnersPage(c, definition, db, r, x, id, query, i, answer.page);
    OwnerByItsKey(c.resources[x.target], x);
    hide OwnerField;
  }

  lemma OwnerByItsKey(target: Resource, x: Relationship)
    requires OwnerField(target, x).Ok?
    ensures OwnerField(target, x).value.key == if x.kind == BelongsTo then target.primaryKey else x.foreignKey
  {
    FieldsIndexed(target.fields);
  }

  lemma ARelatedListOfNoRecord(
    c: Context, t: Texts, definition: Definition, db: Database, r: Resource, x: Relationship, id: Value, query: ListQuery,
    answer: Answer)
    requires Standing(c, definition, db, r) && NamesNone(db, r, id) && x in r.relationships
    requires MayAnswer(c, t, db, ListRelated(r.key, id, x.key, query), answer)
    ensures answer == Listed(Err(NotFound))
  {
    hide Standing, MayAnswer, MayTravel, NamesRow;
    ItsOwnRelationship(c, t, definition, db, r, x, id, query, answer);
    Relating.ARelatedListOfNothing(c, definition, db, r, x, id, query, answer.page);
  }

  lemma AnUnknownRelationshipIsNotFound(
    c: Context, t: Texts, definition: Definition, db: Database, r: Resource, key: Key, id: Value, query: ListQuery,
    answer: Answer)
    requires Standing(c, definition, db, r) && forall x :: x in r.relationships ==> x.key != key
    requires MayAnswer(c, t, db, ListRelated(r.key, id, key, query), answer)
    ensures answer == Listed(Err(NotFound))
  {
    hide Standing, Serves, MayTravel, MayList, MayGet, MayOffer, Saving, MayAct;
    StandingServes(c, definition, db, r);
    NoRelationshipByKey(r.relationships, key);
  }
}
