/** What a write is by the time it has been answered: the row it changed or added,
    the record it answered with, and both readings it accounted for. A read a
    moment later gives that record again, exactly when no relation of the row takes
    its name from the row itself and finds it changed, since a label is read from
    the tables as the statement found them; and writing the reading of before back
    puts every row as it was
    (packages/engine/src/query/write-statements.ts, packages/engine/src/write/record-writer.ts). */
module ReadBack {
  import opened Outcomes
  import opened Definitions
  import opened Statements
  import opened Columns
  import opened RecordValues
  import opened WriteStatements
  import opened RecordsMapper
  import opened Meaning
  import opened Validity
  import opened Servable
  import opened Joins
  import opened Openness
  import opened QueryBuilder
  import opened Reader
  import opened WriteBack
  import Asking
  import Writer
  import Paging

  /** A definition being served over tables whose keys hold. */
  ghost predicate Standing(c: Context, definition: Definition, db: Database, r: Resource) {
    && Valid(definition) && r in definition.resources
    && c.resources == IndexResources(definition.resources)
    && KeysHold(db, c.resources)
  }

  /** The key names the i-th row of the resource's table. */
  ghost predicate NamesRow(db: Database, r: Resource, id: Value, i: nat) {
    i < |RowsOf(db, r.table)| && Same(Cell(RowsOf(db, r.table)[i], r.primaryKey), id)
  }

  lemma KeyIsUnique(c: Context, definition: Definition, db: Database, r: Resource)
    requires Standing(c, definition, db, r)
    ensures Unique(RowsOf(db, r.table), r.primaryKey)
    ensures DistinctFields(r.fields) && r in c.resources.Values
    ensures exists f :: f in r.fields && !f.sensitive && f.key == r.primaryKey
    ensures IdentityField(r).Ok? && IdentityField(r).value.key == r.primaryKey
  {
    hide Valid, ValidResource, Unique;
    ResourceIsIndexed(definition, r);
    assert r.key in c.resources;
    FieldsDiffer(r, c.resources);
    KeyIsServed(r, c.resources);
  }

  // ------------------------------------------------------------ reading back

  lemma {:induction false} OneIsKept(pg: Postgres, rows: seq<Row>, key: Key, id: Value, i: nat)
    requires Unique(rows, key) && i < |rows| && Same(Cell(rows[i], key), id)
    ensures Kept(pg, rows, [Equal(key, 1)], [id]) == [rows[i]]
  {
    Asking.HoldsOne(pg, rows[0], Equal(key, 1), [id]);
    if i == 0 {
      NoneKept(pg, rows[1..], key, id);
    } else {
      OneIsKept(pg, rows[1..], key, id, i - 1);
    }
  }

  lemma {:induction false} NoneKept(pg: Postgres, rows: seq<Row>, key: Key, id: Value)
    requires forall i :: 0 <= i < |rows| ==> !Same(Cell(rows[i], key), id)
    ensures Kept(pg, rows, [Equal(key, 1)], [id]) == []
  {
    if rows != [] {
      Asking.HoldsOne(pg, rows[0], Equal(key, 1), [id]);
      NoneKept(pg, rows[1..], key, id);
    }
  }

  /** A record query finds the one row its key names. */
  lemma RecordCandidates(c: Context, definition: Definition, db: Database, r: Resource, id: Value)
    requires Standing(c, definition, db, r)
    ensures CompiledRecord(c.resources, r, id).Ok? && Selected(r.fields, c.resources).Ok?
    ensures var q, s := CompiledRecord(c.resources, r, id).value, Selected(r.fields, c.resources).value;
      && q.select == s.entries && q.statement.items == s.items
      && q.statement.limit == First(1) && q.statement.order == []
      && Candidates(c.pg, db, q.statement, q.values) ==
           Labelled(db, Kept(c.pg, RowsOf(db, r.table), [Equal(r.primaryKey, 1)], [id]), s.joins)
  {
    hide Valid, Selected, KeysHold, Kept, JoinAll, Where, IdentityField, Unique, JoinsKeys, Found;
    RecordIsServed(definition, r, id);
    KeyIsUnique(c, definition, db, r);
    var s := Selected(r.fields, c.resources).value;
    SelectionJoinsKeys(r.fields, c.resources, db);
    RowsAreLabelled(db, RowsOf(db, r.table), s.joins);
    WhereKeeps(c.pg, db, RowsOf(db, r.table), s.joins, [Equal(r.primaryKey, 1)], [id]);
  }

  /** Whatever a read of a record may answer, it is the row its key names. */
  lemma AReadFindsItsRow(
    c: Context, definition: Definition, db: Database, r: Resource, id: Value, i: nat, answer: Outcome<Record>)
    requires Standing(c, definition, db, r) && NamesRow(db, r, id, i)
    requires MayRead(c, db, r, id, answer)
    ensures answer == Ok(RecordOf(c.driver, db, c.resources, RowsOf(db, r.table)[i], r.fields, r.primaryKey))
  {
    RecordCandidates(c, definition, db, r, id);
    KeyIsUnique(c, definition, db, r);
    hide Standing, Selected, Candidates, CompiledRecord, Found, RecordOf, Kept, Arranges, Window, Output, DecodedRows, Unique, IdentityEntry, JoinedBy;
    var row := RowsOf(db, r.table)[i];
    OneIsKept(c.pg, RowsOf(db, r.table), r.primaryKey, id, i);
    var q, s := CompiledRecord(c.resources, r, id).value, Selected(r.fields, c.resources).value;
    var env := Env(row, Found(db, row, s.joins));
    assert Labelled(db, [row], s.joins) == [env];
    var out :| Answers(c.pg, db, q.statement, q.values, out) && answer == RecordFrom(c, r, q.select, out);
    LabelledIsJoined(db, row, s.joins);
    Paging.RowDecodes(c.driver, db, c.resources, r.fields, r.primaryKey, env);
    OneDecodes(c.driver, s.entries, IdentityEntry(s.entries, r.primaryKey).value, Project(env, s.items));
  }

  // ------------------------------------------------------------- one update

  /** What an accepted submission assigns: its own values, and nothing else. */
  lemma SubmittedIsPut(r: Resource, mode: Mode, s: Submission, fits: (Field, Value) -> bool, k: Key)
    requires s.WellFormed() && DistinctFields(r.fields) && Problems(r, mode, s, fits) == []
    ensures Put(AssignmentsFor(r.fields, s.values), k) == if k in s.values then Some(s.values[k]) else None
  {
    hide Put, Problems, AssignmentsFor, RefuseUnwritable, InDeclarationOrder;
    var _ := TheTwoWallsAgree(r, mode, s, fits);
    PutExactlyTheAssigned(AssignmentsFor(r.fields, s.values), k);
  }

  /** A row that took what was submitted, and kept the rest. */
  ghost predicate Took(before: Row, values: map<Key, Value>, after: Row) {
    forall k :: Cell(after, k) == if k in values then values[k] else Cell(before, k)
  }

  /** The tables after a write to one row of one table. */
  ghost predicate WroteOne(before: Database, table: Key, i: nat, values: map<Key, Value>, after: Database) {
    && (forall t :: t != table ==> RowsOf(after, t) == RowsOf(before, t))
    && |RowsOf(after, table)| == |RowsOf(before, table)|
    && i < |RowsOf(before, table)|
    && Took(RowsOf(before, table)[i], values, RowsOf(after, table)[i])
    && (forall j :: 0 <= j < |RowsOf(before, table)| && j != i ==> RowsOf(after, table)[j] == RowsOf(before, table)[j])
  }

  lemma OnlyOneIsNamed(rows: seq<Row>, key: Key, id: Value, i: nat)
    requires Unique(rows, key) && i < |rows| && Same(Cell(rows[i], key), id)
    ensures forall j :: 0 <= j < |rows| && j != i ==> !Same(Cell(rows[j], key), id)
  {
  }

  lemma UpdateWritesOne(
    c: Context, definition: Definition, db: Database, r: Resource, s: Submission, fits: (Field, Value) -> bool,
    id: Value, i: nat)
    requires Standing(c, definition, db, r) && NamesRow(db, r, id, i)
    requires s.WellFormed() && Problems(r, Updating, s, fits) == []
    ensures var assignments := AssignmentsFor(r.fields, s.values);
      && CompiledUpdate(c.resources, r, assignments, id).Ok?
      && var q := CompiledUpdate(c.resources, r, assignments, id).value;
         WroteOne(db, r.table, i, s.values, Execute(db, q.statement, q.values, map[]).0)
  {
    hide Valid, Problems, AssignmentsFor, CompiledUpdate, Execute, Unique, KeysHold, Put;
    KeyIsUnique(c, definition, db, r);
    WritesAreServed(definition, r, Updating, s, fits, id);
    var assignments := AssignmentsFor(r.fields, s.values);
    var q := CompiledUpdate(c.resources, r, assignments, id).value;
    var after := Execute(db, q.statement, q.values, map[]).0;
    forall t ensures if t == r.table
                     then Updates(RowsOf(db, t), r.primaryKey, id, assignments, RowsOf(after, t))
                     else RowsOf(after, t) == RowsOf(db, t)
    {
      UpdateChangesTheNamedRow(c.resources, r, assignments, id, db, t);
    }
    assert Updates(RowsOf(db, r.table), r.primaryKey, id, assignments, RowsOf(after, r.table));
    OnlyOneIsNamed(RowsOf(db, r.table), r.primaryKey, id, i);
    forall k { SubmittedIsPut(r, Updating, s, fits, k); }
  }

  lemma UpdateAnswersWithOne(
    c: Context, definition: Definition, db: Database, r: Resource, assignments: seq<Assignment>, id: Value, i: nat)
    requires Standing(c, definition, db, r) && NamesRow(db, r, id, i)
    requires CompiledUpdate(c.resources, r, assignments, id).Ok?
    ensures var q := CompiledUpdate(c.resources, r, assignments, id).value;
            Execute(db, q.statement, q.values, map[]).1 ==
            [Answered(db, q.statement, q.values, RowsOf(db, r.table)[i])]
  {
    hide Valid, KeysHold, Execute, Selected, RefuseUnwritable, Values, ReturningList, Answered, Unique, JoinsKeys, IdentityField;
    KeyIsUnique(c, definition, db, r);
    var q := CompiledUpdate(c.resources, r, assignments, id).value;
    SelectionJoinsKeys(r.fields, c.resources, db);
    assert Bound(q.values, q.statement.keySlot) == id;
    OneRowAnswers(db, q.statement, q.values, i);
  }

  /** A submission's keys are its touched columns. */
  lemma TouchedAreSubmitted(r: Resource, mode: Mode, s: Submission, fits: (Field, Value) -> bool)
    requires s.WellFormed() && DistinctFields(r.fields) && Problems(r, mode, s, fits) == []
    ensures Writer.Touched(AssignmentsFor(r.fields, s.values)) == s.values.Keys
  {
    hide Problems, AssignmentsFor, RefuseUnwritable, InDeclarationOrder;
    var _ := TheTwoWallsAgree(r, mode, s, fits);
  }

  /** The columns a write set, by field, as some row holds them. */
  ghost predicate Reads(d: Driver, r: Resource, values: map<Key, Value>, row: Row, reading: map<Key, Value>) {
    && reading.Keys == values.Keys
    && forall f :: f in r.fields && f.key in values ==> reading[f.key] == ToValue(d, f.kind, Cell(row, f.key))
  }

  lemma ReadingReads(d: Driver, r: Resource, fields: seq<Field>, values: map<Key, Value>, row: Row)
    requires DistinctFields(fields) && forall f :: f in fields ==> f in r.fields
    requires forall f :: f in r.fields && f.key in values ==> f in fields && !f.sensitive
    requires forall k :: k in values ==> exists f :: f in r.fields && f.key == k
    ensures Reads(d, r, values, row, Reading(d, fields, values.Keys, row))
  {
    ReadingHasItsKeys(d, fields, values.Keys, row);
    ReadingIsItsOwn(d, fields, values.Keys, row);
  }

  lemma AcceptedFields(r: Resource, mode: Mode, s: Submission, fits: (Field, Value) -> bool)
    requires s.WellFormed() && DistinctFields(r.fields) && Problems(r, mode, s, fits) == []
    ensures forall f :: f in r.fields && f.key in s.values ==> !f.sensitive
    ensures forall k :: k in s.values ==> exists f :: f in r.fields && f.key == k
    ensures mode == Updating ==> r.primaryKey !in s.values
  {
    hide Problems;
    AcceptedExactlyWhenAcceptable(r, mode, s, fits);
    FieldsIndexed(r.fields);
    forall f | f in r.fields && f.key in s.values ensures !f.sensitive {
      FieldByKey(r.fields, f);
    }
  }

  lemma AssignedFields(r: Resource, mode: Mode, s: Submission, fits: (Field, Value) -> bool)
    requires s.WellFormed() && DistinctFields(r.fields) && Problems(r, mode, s, fits) == []
    ensures var fields := FieldsOf(AssignmentsFor(r.fields, s.values));
      && DistinctFields(fields)
      && (forall f :: f in fields ==> f in r.fields)
      && (forall f :: f in r.fields && f.key in s.values ==> f in fields)
  {
    hide Problems, AssignmentsFor;
    var assignments := AssignmentsFor(r.fields, s.values);
    var at := AssignsWhatWasSubmitted(r.fields, s.values);
    var fields := FieldsOf(assignments);
    forall f | f in r.fields && f.key in s.values ensures f in fields {
      var a := Assignment(f, s.values[f.key]);
      assert a in assignments;
      var i :| 0 <= i < |assignments| && assignments[i] == a;
      assert fields[i] == f;
    }
  }

  /** Both readings of an update, out of the row it answered with. */
  lemma UpdateIsAccountedFor(
    c: Context, definition: Definition, db: Database, r: Resource, s: Submission, fits: (Field, Value) -> bool,
    id: Value, row: Row)
    requires Standing(c, definition, db, r)
    requires s.WellFormed() && Problems(r, Updating, s, fits) == []
    requires CompiledUpdate(c.resources, r, AssignmentsFor(r.fields, s.values), id).Ok?
    ensures var q := CompiledUpdate(c.resources, r, AssignmentsFor(r.fields, s.values), id).value;
            var out := Answered(db, q.statement, q.values, row);
            var written := Assigned(row, q.statement.columns, q.statement.slots, q.values);
      && Reads(c.driver, r, s.values, row, FieldValues(c.driver, q.before, s.values.Keys, out))
      && Reads(c.driver, r, s.values, written, FieldValues(c.driver, q.select, s.values.Keys, out))
  {
    hide Standing, Problems, AssignmentsFor, Selected, RefuseUnwritable, Values, ReturningList, IdentityField, Assigned, Project, Found, Reads, FieldValues, Reading, DistinctFields, Returned, Column;
    KeyIsUnique(c, definition, db, r);
    AcceptedFields(r, Updating, s, fits);
    AssignedFields(r, Updating, s, fits);
    var assignments := AssignmentsFor(r.fields, s.values);
    var fields := FieldsOf(assignments);
    var q := CompiledUpdate(c.resources, r, assignments, id).value;
    var selection, before := Selected(r.fields, c.resources).value, Values(fields, BEFORE_SPACE);
    var written := Assigned(row, q.statement.columns, q.statement.slots, q.values);
    var returned := Returned(written, q.statement.returning);
    var env := Env(returned, Found(db, returned, q.statement.joins));
    BothHalvesAreRead(c.driver, r.fields, c.resources, fields, s.values.Keys, env, written, row);
    ReadingReads(c.driver, r, fields, s.values, row);
    ReadingReads(c.driver, r, r.fields, s.values, written);
  }

  lemma BothHalvesAreRead(
    d: Driver, fields: seq<Field>, resources: Resources, named: seq<Field>, keys: set<Key>, env: Env, written: Row, row: Row)
    requires Selected(fields, resources).Ok?
    requires env.row == Returned(written, ReturningList(Selected(fields, resources).value.entries))
    ensures var s, before := Selected(fields, resources).value, Values(named, BEFORE_SPACE);
            var out := Project(env, s.items) + Project(Env(row, []), before.items);
      && FieldValues(d, before.entries, keys, out) == Reading(d, named, keys, row)
      && FieldValues(d, s.entries, keys, out) == Reading(d, fields, keys, written)
  {
    hide Selected, Values, Project, FieldValues, Reading, Returned, ReturningList, Column;
    var s, before := Selected(fields, resources).value, Values(named, BEFORE_SPACE);
    var left, right := Project(env, s.items), Project(Env(row, []), before.items);
    SelectionsAlign(fields, resources);
    ValuesAlign(named, BEFORE_SPACE);
    EachAliasReadsItsOwn(env, s, VALUE_SPACE);
    EachAliasReadsItsOwn(Env(row, []), before, BEFORE_SPACE);
    forall i | 0 <= i < |before.items|
      ensures Column(left + right, Alias(BEFORE_SPACE, i)) == Cell(row, before.items[i].from.column)
    {
      SpacesKeepApart(left, right, Alias(BEFORE_SPACE, i));
      ValuesReadTheBase(named, BEFORE_SPACE, i);
    }
    ValuesAreRead(d, named, keys, BEFORE_SPACE, row, left + right);
    forall i | 0 <= i < |s.entries| && !s.entries[i].isLabel
      ensures Column(left + right, Alias(VALUE_SPACE, i)) == Cell(written, s.entries[i].key)
    {
      SpacesKeepApart(left, right, Alias(VALUE_SPACE, i));
      EntryIsReturned(s.entries, i);
      ReturnedCell(written, ReturningList(s.entries), s.entries[i].key);
    }
    SelectionIsRead(d, fields, resources, keys, written, left + right);
  }

  lemma {:induction false} ValuesReadTheBase(fields: seq<Field>, space: char, i: nat)
    requires i < |Values(fields, space).items|
    ensures Values(fields, space).items[i].from.source == Base
  {
    if fields != [] {
      var before := Values(fields[..|fields| - 1], space);
      if i < |before.items| {
        ValuesReadTheBase(fields[..|fields| - 1], space, i);
      }
    }
  }

  lemma {:induction false} EntryIsReturned(entries: seq<Entry>, i: nat)
    requires i < |entries| && !entries[i].isLabel
    ensures entries[i].key in ReturningList(entries)
  {
    var n := |entries| - 1;
    if i < n {
      EntryIsReturned(entries[..n], i);
    }
  }

  /** An update, whole: it changes the submitted columns of the one row its key
      names and nothing else; the record it answers with is that row's, named by
      the tables as they stood; and its account is of those columns, before and
      after. */
  lemma AnUpdateIsWhatItSays(
    c: Context, definition: Definition, db: Database, r: Resource, s: Submission, fits: (Field, Value) -> bool,
    id: Value, i: nat)
    requires Standing(c, definition, db, r) && NamesRow(db, r, id, i) && r.updates
    requires s.WellFormed() && Problems(r, Updating, s, fits) == []
    ensures var effect := Writer.WriteRecord(c, fits, db, r, Updating, s, id, map[]);
      && WroteOne(db, r.table, i, s.values, effect.db)
      && effect.answer.Ok?
      && var row, written := RowsOf(db, r.table)[i], effect.answer.value;
      && written.record == RecordOf(c.driver, db, c.resources, RowsOf(effect.db, r.table)[i], r.fields, r.primaryKey)
      && written.before.Some?
      && Reads(c.driver, r, s.values, row, written.before.value)
      && Reads(c.driver, r, s.values, RowsOf(effect.db, r.table)[i], written.after)
  {
    hide Standing, Problems, AssignmentsFor, CompiledUpdate, Execute, Answered, Assigned, FieldValues, RecordDtos, RecordOf, Took, Unique;
    UpdateWritesOne(c, definition, db, r, s, fits, id, i);
    var assignments := AssignmentsFor(r.fields, s.values);
    UpdateAnswersWithOne(c, definition, db, r, assignments, id, i);
    UpdateIsAccountedFor(c, definition, db, r, s, fits, id, RowsOf(db, r.table)[i]);
    UpdateDecodes(c, definition, db, r, s, fits, id, i);
    KeyIsUnique(c, definition, db, r);
    TouchedAreSubmitted(r, Updating, s, fits);
  }

  /** The row as the update left it, and as its own statement computed it. */
  lemma WrittenIsTheRow(
    c: Context, definition: Definition, db: Database, r: Resource, assignments: seq<Assignment>, id: Value, i: nat)
    requires NamesRow(db, r, id, i)
    requires CompiledUpdate(c.resources, r, assignments, id).Ok?
    ensures var q := CompiledUpdate(c.resources, r, assignments, id).value;
            RowsOf(Execute(db, q.statement, q.values, map[]).0, r.table)[i..] != [] &&
            RowsOf(Execute(db, q.statement, q.values, map[]).0, r.table)[i] ==
            Assigned(RowsOf(db, r.table)[i], q.statement.columns, q.statement.slots, q.values)
  {
    hide Selected, RefuseUnwritable, Values, ReturningList;
    FieldsIndexed(r.fields);
    var q := CompiledUpdate(c.resources, r, assignments, id).value;
    TablesAfter(db, q.statement, q.values, map[], r.table);
    hide Execute, Assigned;
    assert Bound(q.values, q.statement.keySlot) == id;
  }

  lemma UpdateDecodes(
    c: Context, definition: Definition, db: Database, r: Resource, s: Submission, fits: (Field, Value) -> bool,
    id: Value, i: nat)
    requires Standing(c, definition, db, r) && NamesRow(db, r, id, i)
    requires s.WellFormed() && Problems(r, Updating, s, fits) == []
    requires CompiledUpdate(c.resources, r, AssignmentsFor(r.fields, s.values), id).Ok?
    ensures var q := CompiledUpdate(c.resources, r, AssignmentsFor(r.fields, s.values), id).value;
            var after := Execute(db, q.statement, q.values, map[]).0;
            var written := Assigned(RowsOf(db, r.table)[i], q.statement.columns, q.statement.slots, q.values);
      && i < |RowsOf(after, r.table)| && RowsOf(after, r.table)[i] == written
      && RecordDtos(c.driver, q.select, r.primaryKey, [Answered(db, q.statement, q.values, RowsOf(db, r.table)[i])])
         == Ok([RecordOf(c.driver, db, c.resources, written, r.fields, r.primaryKey)])
  {
    hide Standing, Problems, AssignmentsFor, Execute, Assigned, Selected, RefuseUnwritable, Values, ReturningList, Project, RecordDtos, RecordOf, Unique, Found, Returned;
    var assignments := AssignmentsFor(r.fields, s.values);
    WrittenIsTheRow(c, definition, db, r, assignments, id, i);
    UpdateWritesOne(c, definition, db, r, s, fits, id, i);
    KeyIsUnique(c, definition, db, r);
    AcceptedFields(r, Updating, s, fits);
    var row := RowsOf(db, r.table)[i];
    var q := CompiledUpdate(c.resources, r, assignments, id).value;
    var selection := Selected(r.fields, c.resources).value;
    var written := Assigned(row, q.statement.columns, q.statement.slots, q.values);
    var right := Project(Env(row, []), q.statement.before);
    var before := Values(FieldsOf(assignments), BEFORE_SPACE);
    ValuesAlign(FieldsOf(assignments), BEFORE_SPACE);
    EachAliasReadsItsOwn(Env(row, []), before, BEFORE_SPACE);
    WrittenRowDecodes(c.driver, db, c.resources, r.fields, r.primaryKey, written, right);
  }

  // ------------------------------------------------- against a later read

  /** The name a row gives to a key, when the key is its own. */
  function SelfName(d: Driver, target: Resource, named: Field, row: Row, key: Value): Value {
    if Same(Cell(row, target.primaryKey), key) then ToName(d, named.kind, Cell(row, named.key)) else Null
  }

  function NameAmong(d: Driver, rows: seq<Row>, target: Resource, named: Field, key: Value): Value {
    var found := Matching(rows, target.primaryKey, key);
    ToName(d, named.kind, if found == [] then Null else Cell(found[0], named.key))
  }

  lemma {:induction false} NamedByTheOne(d: Driver, rows: seq<Row>, target: Resource, named: Field, key: Value, j: nat)
    requires Unique(rows, target.primaryKey) && j < |rows| && Same(Cell(rows[j], target.primaryKey), key)
    ensures NameAmong(d, rows, target, named, key) == ToName(d, named.kind, Cell(rows[j], named.key))
  {
    hide ToName;
    if j > 0 {
      assert !Same(Cell(rows[0], target.primaryKey), key);
      NamedByTheOne(d, rows[1..], target, named, key, j - 1);
    }
  }

  lemma NamedByNone(d: Driver, rows: seq<Row>, target: Resource, named: Field, key: Value)
    requires forall j :: 0 <= j < |rows| ==> !Same(Cell(rows[j], target.primaryKey), key)
    ensures NameAmong(d, rows, target, named, key) == Null
  {
    NoneMatch(rows, target.primaryKey, key);
  }

  /** A name changes with a row exactly when the row is the one that gives it. */
  lemma NameMovesWithItsRow(
    d: Driver, before: seq<Row>, after: seq<Row>, i: nat, target: Resource, named: Field, key: Value)
    requires |before| == |after| && i < |before|
    requires forall j :: 0 <= j < |before| && j != i ==> before[j] == after[j]
    requires Unique(before, target.primaryKey) && Unique(after, target.primaryKey)
    ensures NameAmong(d, before, target, named, key) == NameAmong(d, after, target, named, key) <==>
            SelfName(d, target, named, before[i], key) == SelfName(d, target, named, after[i], key)
  {
    hide NameAmong, ToName, Matching;
    NameNow(d, before, i, target, named, key);
    NameNow(d, after, i, target, named, key);
    if j :| 0 <= j < |before| && j != i && Same(Cell(before[j], target.primaryKey), key) {
      NamedByTheOne(d, before, target, named, key, j);
      NamedByTheOne(d, after, target, named, key, j);
    }
  }

  /** Where no other row is meant, the name is the row's own to give. */
  lemma NameNow(d: Driver, rows: seq<Row>, i: nat, target: Resource, named: Field, key: Value)
    requires i < |rows| && Unique(rows, target.primaryKey)
    ensures (forall j :: 0 <= j < |rows| && j != i ==> !Same(Cell(rows[j], target.primaryKey), key)) ==>
              NameAmong(d, rows, target, named, key) == SelfName(d, target, named, rows[i], key)
    ensures (exists j :: 0 <= j < |rows| && j != i && Same(Cell(rows[j], target.primaryKey), key)) ==>
              SelfName(d, target, named, rows[i], key) == Null
  {
    hide NameAmong, Matching;
    if Same(Cell(rows[i], target.primaryKey), key) {
      NamedByTheOne(d, rows, target, named, key, i);
    } else if forall j :: 0 <= j < |rows| && j != i ==> !Same(Cell(rows[j], target.primaryKey), key) {
      NamedByNone(d, rows, target, named, key);
    }
  }

  /** Every relation of the row that could be naming the row itself is given the
      same name by it before and after. */
  ghost predicate NamesItselfAlike(d: Driver, resources: Resources, r: Resource, before: Row, after: Row) {
    forall f :: f in r.fields && !f.sensitive && f.kind.Relation? ==>
      f.kind.target in resources && LabelField(resources[f.kind.target]).Ok? &&
      var target := resources[f.kind.target];
      var key := Cell(after, f.key);
      target.table == r.table ==>
        SelfName(d, target, LabelField(target).value, before, key) == SelfName(d, target, LabelField(target).value, after, key)
  }

  lemma {:induction false} ShownAt(d: Driver, db: Database, resources: Resources, row: Row, fields: seq<Field>)
    requires DistinctFields(fields)
    ensures forall f :: f in fields && !f.sensitive ==>
      f.key in Shown(d, db, resources, row, fields) &&
      Shown(d, db, resources, row, fields)[f.key] == ShownField(d, db, resources, row, f)
    ensures forall k :: k in Shown(d, db, resources, row, fields) ==> exists f :: f in fields && !f.sensitive && f.key == k
  {
    hide ShownField;
    if fields != [] {
      var init := fields[..|fields| - 1];
      assert fields == init + [fields[|fields| - 1]];
      ShownAt(d, db, resources, row, init);
    }
  }

  lemma ShownAlike(d: Driver, a: Database, b: Database, resources: Resources, row: Row, fields: seq<Field>)
    requires DistinctFields(fields)
    ensures Shown(d, a, resources, row, fields) == Shown(d, b, resources, row, fields) <==>
            forall f :: f in fields && !f.sensitive ==>
              ShownField(d, a, resources, row, f) == ShownField(d, b, resources, row, f)
  {
    hide Shown, ShownField;
    ShownAt(d, a, resources, row, fields);
    ShownAt(d, b, resources, row, fields);
    var x, y := Shown(d, a, resources, row, fields), Shown(d, b, resources, row, fields);
    if forall f :: f in fields && !f.sensitive ==>
         ShownField(d, a, resources, row, f) == ShownField(d, b, resources, row, f)
    {
      assert x.Keys == y.Keys;
    }
  }

  /** One table apart: the rest of the database is the same. */
  ghost predicate OnlyTable(before: Database, table: Key, after: Database) {
    forall t :: t != table ==> RowsOf(after, t) == RowsOf(before, t)
  }

  /** Two states one table apart show a row alike exactly when every relation to
      that table is given the same name by both. */
  lemma ShownFieldMoves(
    d: Driver, a: Database, b: Database, resources: Resources, table: Key, row: Row, f: Field)
    requires OnlyTable(a, table, b)
    requires f.kind.Relation? ==> f.kind.target in resources && LabelField(resources[f.kind.target]).Ok?
    ensures ShownField(d, a, resources, row, f) == ShownField(d, b, resources, row, f) <==>
            (f.kind.Relation? && resources[f.kind.target].table == table ==>
              var target := resources[f.kind.target];
              NameAmong(d, RowsOf(a, table), target, LabelField(target).value, Cell(row, f.key)) ==
              NameAmong(d, RowsOf(b, table), target, LabelField(target).value, Cell(row, f.key)))
  {
    hide LabelField, Matching, ToName;
  }

  lemma RecordsReadAlike(
    c: Context, definition: Definition, a: Database, b: Database, r: Resource, i: nat)
    requires Standing(c, definition, a, r) && Standing(c, definition, b, r)
    requires OnlyTable(a, r.table, b)
    requires var before, after := RowsOf(a, r.table), RowsOf(b, r.table);
      && |before| == |after| && i < |before|
      && forall j :: 0 <= j < |before| && j != i ==> before[j] == after[j]
    ensures var before, after := RowsOf(a, r.table)[i], RowsOf(b, r.table)[i];
            RecordOf(c.driver, a, c.resources, after, r.fields, r.primaryKey) ==
            RecordOf(c.driver, b, c.resources, after, r.fields, r.primaryKey)
            <==> NamesItselfAlike(c.driver, c.resources, r, before, after)
  {
    hide Valid, LabelField, NameAmong, SelfName, ShownField, Shown, KeysHold, Unique, NamesItsTargets;
    KeyIsUnique(c, definition, a, r);
    TargetsAreNamed(definition, r);
    var d, row := c.driver, RowsOf(b, r.table)[i];
    ShownAlike(d, a, b, c.resources, row, r.fields);
    forall f | f in r.fields && !f.sensitive
      ensures f.kind.Relation? ==> f.kind.target in c.resources && LabelField(c.resources[f.kind.target]).Ok?
      ensures ShownField(d, a, c.resources, row, f) == ShownField(d, b, c.resources, row, f) <==>
              (f.kind.Relation? && c.resources[f.kind.target].table == r.table ==>
                var target := c.resources[f.kind.target];
                SelfName(d, target, LabelField(target).value, RowsOf(a, r.table)[i], Cell(row, f.key)) ==
                SelfName(d, target, LabelField(target).value, row, Cell(row, f.key)))
    {
      NamedTargetOf(r, c.resources, f);
      ShownFieldMoves(d, a, b, c.resources, r.table, row, f);
      if f.kind.Relation? && c.resources[f.kind.target].table == r.table {
        var target := c.resources[f.kind.target];
        KeysHoldAt(a, c.resources, f.kind.target);
        KeysHoldAt(b, c.resources, f.kind.target);
        NameMovesWithItsRow(d, RowsOf(a, r.table), RowsOf(b, r.table), i, target, LabelField(target).value, Cell(row, f.key));
      }
    }
  }

  lemma NamedTargetOf(r: Resource, resources: Resources, f: Field)
    requires NamesItsTargets(r.fields, resources) && f in r.fields
    ensures f.kind.Relation? ==> f.kind.target in resources && LabelField(resources[f.kind.target]).Ok?
  {
  }

  lemma KeysHoldAt(db: Database, resources: Resources, k: Key)
    requires KeysHold(db, resources) && k in resources
    ensures Unique(RowsOf(db, resources[k].table), resources[k].primaryKey)
  {
  }

  /** The record an update answers with is the one a later read gives, exactly
      when no relation of the row takes its name from the row itself and finds
      it changed: names are read as the tables stood before the write. */
  lemma AnUpdateReadsBack(
    c: Context, definition: Definition, db: Database, r: Resource, s: Submission, fits: (Field, Value) -> bool,
    id: Value, i: nat, later: Outcome<Record>)
    requires Standing(c, definition, db, r) && NamesRow(db, r, id, i) && r.updates
    requires s.WellFormed() && Problems(r, Updating, s, fits) == []
    requires var effect := Writer.WriteRecord(c, fits, db, r, Updating, s, id, map[]);
             KeysHold(effect.db, c.resources) && MayRead(c, effect.db, r, id, later)
    ensures var effect := Writer.WriteRecord(c, fits, db, r, Updating, s, id, map[]);
      && effect.answer.Ok? && later.Ok?
      && |RowsOf(effect.db, r.table)| > i
      && (effect.answer.value.record == later.value <==>
          NamesItselfAlike(c.driver, c.resources, r, RowsOf(db, r.table)[i], RowsOf(effect.db, r.table)[i]))
  {
    hide Valid, Problems, Writer.WriteRecord, MayRead, RecordOf, NamesItselfAlike, Reads, KeysHold, Unique, DistinctFields, IdentityField;
    AnUpdateIsWhatItSays(c, definition, db, r, s, fits, id, i);
    AcceptedFields(r, Updating, s, fits) by { KeyIsUnique(c, definition, db, r); }
    var effect := Writer.WriteRecord(c, fits, db, r, Updating, s, id, map[]);
    assert Standing(c, definition, effect.db, r);
    assert NamesRow(effect.db, r, id, i);
    AReadFindsItsRow(c, definition, effect.db, r, id, i, later);
    RecordsReadAlike(c, definition, db, effect.db, r, i);
  }

  /** In particular when no relation points at the row, by its old key or its new. */
  lemma APointerElsewhereIsNamedAlike(d: Driver, resources: Resources, r: Resource, before: Row, after: Row)
    requires forall f :: f in r.fields && f.kind.Relation? ==>
      f.kind.target in resources && LabelField(resources[f.kind.target]).Ok? &&
      (resources[f.kind.target].table == r.table ==>
        && !Same(Cell(before, resources[f.kind.target].primaryKey), Cell(after, f.key))
        && !Same(Cell(after, resources[f.kind.target].primaryKey), Cell(after, f.key)))
    ensures NamesItselfAlike(d, resources, r, before, after)
  {
  }

  /** And not when a row points at itself and has been given another name. */
  lemma ASelfPointerIsNamedStale(d: Driver, resources: Resources, r: Resource, before: Row, after: Row, f: Field)
    requires f in r.fields && !f.sensitive && f.kind == Relation(r.key) && r.key in resources && resources[r.key] == r
    requires LabelField(r).Ok?
    requires Cell(before, r.primaryKey) == Cell(after, r.primaryKey) == Cell(after, f.key) != Null
    requires var named := LabelField(r).value;
             ToName(d, named.kind, Cell(before, named.key)) != ToName(d, named.kind, Cell(after, named.key))
    ensures !NamesItselfAlike(d, resources, r, before, after)
  {
    hide LabelField, ToName;
    var named := LabelField(r).value;
    assert SelfName(d, r, named, before, Cell(after, f.key)) != SelfName(d, r, named, after, Cell(after, f.key));
  }

  // -------------------------------------------------------------- undoing it

  lemma {:induction false} AssignmentsPut(fields: seq<Field>, values: map<Key, Value>, k: Key)
    ensures Put(AssignmentsFor(fields, values), k) ==
            if k in values && (exists f :: f in fields && f.key == k) then Some(values[k]) else None
  {
    if fields != [] {
      var init, last := fields[..|fields| - 1], fields[|fields| - 1];
      assert fields == init + [last];
      AssignmentsPut(init, values, k);
      var before, all := AssignmentsFor(init, values), AssignmentsFor(fields, values);
      if last.key in values {
        assert all[..|before|] == before;
        assert all[|before|] == Assignment(last, values[last.key]);
      } else {
        assert all == before;
        assert k in values ==> last.key != k;
      }
    }
  }

  /** Which columns a write sets depends on the keys it carries, not the values. */
  lemma {:induction false} SameKeysSameFields(fields: seq<Field>, a: map<Key, Value>, b: map<Key, Value>)
    requires a.Keys == b.Keys
    ensures FieldsOf(AssignmentsFor(fields, a)) == FieldsOf(AssignmentsFor(fields, b))
  {
    if fields != [] {
      var init, last := fields[..|fields| - 1], fields[|fields| - 1];
      SameKeysSameFields(init, a, b);
      assert last.key in a <==> last.key in b;
      var x, y := AssignmentsFor(init, a), AssignmentsFor(init, b);
      assert |x| == |FieldsOf(x)| == |y|;
      forall i | 0 <= i < |x| ensures x[i].field == y[i].field {
        assert FieldsOf(x)[i] == FieldsOf(y)[i];
      }
    }
  }

  lemma SameFieldsSameRefusal(r: Resource, mode: Mode, a: seq<Assignment>, b: seq<Assignment>)
    requires FieldsOf(a) == FieldsOf(b)
    ensures RefuseUnwritable(r, a, mode) == RefuseUnwritable(r, b, mode)
  {
    hide RefusedKeys;
    assert |a| == |FieldsOf(a)| == |b|;
    SameFieldsSameKeys(r, mode, a, b);
  }

  lemma {:induction false} SameFieldsSameKeys(r: Resource, mode: Mode, a: seq<Assignment>, b: seq<Assignment>)
    requires FieldsOf(a) == FieldsOf(b)
    ensures RefusedKeys(r, a, mode) == RefusedKeys(r, b, mode)
  {
    hide Writable;
    assert |a| == |FieldsOf(a)| == |b|;
    if a != [] {
      var n := |a| - 1;
      assert FieldsOf(a)[n] == FieldsOf(b)[n];
      assert FieldsOf(a[..n]) == FieldsOf(a)[..n];
      assert FieldsOf(b[..n]) == FieldsOf(b)[..n];
      SameFieldsSameKeys(r, mode, a[..n], b[..n]);
    }
  }

  /** The driver hands back the columns a write set as it was given them. */
  ghost predicate ReadsFaithfully(d: Driver, r: Resource, keys: set<Key>, row: Row) {
    forall f :: f in r.fields && f.key in keys ==> ToValue(d, f.kind, Cell(row, f.key)) == Cell(row, f.key)
  }

  /** Writing the `before` an update accounted for puts every column of every
      row back, as far as the driver hands values back as it was given them. */
  lemma WritingBeforeBackRestores(
    c: Context, definition: Definition, db: Database, r: Resource, s: Submission, fits: (Field, Value) -> bool,
    id: Value, i: nat)
    requires Standing(c, definition, db, r) && NamesRow(db, r, id, i) && r.updates
    requires s.WellFormed() && Problems(r, Updating, s, fits) == []
    requires ReadsFaithfully(c.driver, r, s.values.Keys, RowsOf(db, r.table)[i])
    ensures var effect := Writer.WriteRecord(c, fits, db, r, Updating, s, id, map[]);
      && effect.answer.Ok? && effect.answer.value.before.Some?
      && var undo := CompiledUpdate(c.resources, r, AssignmentsFor(r.fields, effect.answer.value.before.value), id);
      && undo.Ok?
      && var restored := Execute(effect.db, undo.value.statement, undo.value.values, map[]).0;
      && (forall t :: t != r.table ==> RowsOf(restored, t) == RowsOf(db, t))
      && |RowsOf(restored, r.table)| == |RowsOf(db, r.table)|
      && forall j :: 0 <= j < |RowsOf(db, r.table)| ==> SameRow(RowsOf(restored, r.table)[j], RowsOf(db, r.table)[j])
  {
    hide Valid, Problems, Writer.WriteRecord, RecordOf, AssignmentsFor, CompiledUpdate, Execute, Put, KeysHold;
    AnUpdateIsWhatItSays(c, definition, db, r, s, fits, id, i);
    KeyIsUnique(c, definition, db, r);
    AcceptedFields(r, Updating, s, fits);
    var effect := Writer.WriteRecord(c, fits, db, r, Updating, s, id, map[]);
    var before := effect.answer.value.before.value;
    UndoCompiles(c, definition, db, r, s, fits, id, before);
    var undo := CompiledUpdate(c.resources, r, AssignmentsFor(r.fields, before), id).value;
    var restored := Execute(effect.db, undo.statement, undo.values, map[]).0;
    forall t ensures if t == r.table
                     then Updates(RowsOf(effect.db, t), r.primaryKey, id, AssignmentsFor(r.fields, before), RowsOf(restored, t))
                     else RowsOf(restored, t) == RowsOf(effect.db, t)
    {
      UpdateChangesTheNamedRow(c.resources, r, AssignmentsFor(r.fields, before), id, effect.db, t);
    }
    UndoneRows(c.driver, r, s.values, before, RowsOf(db, r.table), RowsOf(effect.db, r.table), RowsOf(restored, r.table), id, i);
  }

  lemma UndoCompiles(
    c: Context, definition: Definition, db: Database, r: Resource, s: Submission, fits: (Field, Value) -> bool,
    id: Value, before: map<Key, Value>)
    requires Standing(c, definition, db, r)
    requires s.WellFormed() && Problems(r, Updating, s, fits) == [] && before.Keys == s.values.Keys
    ensures CompiledUpdate(c.resources, r, AssignmentsFor(r.fields, before), id).Ok?
  {
    hide Valid, Problems, AssignmentsFor, RefuseUnwritable, Selected, IdentityField, KeysHold;
    WritesAreServed(definition, r, Updating, s, fits, id);
    SameKeysSameFields(r.fields, s.values, before);
    SameFieldsSameRefusal(r, Updating, AssignmentsFor(r.fields, s.values), AssignmentsFor(r.fields, before));
  }

  lemma UndoneRows(
    d: Driver, r: Resource, values: map<Key, Value>, before: map<Key, Value>, rows: seq<Row>, changed: seq<Row>,
    restored: seq<Row>, id: Value, i: nat)
    requires |rows| == |changed| && i < |rows| && Unique(rows, r.primaryKey)
    requires Same(Cell(rows[i], r.primaryKey), id) && r.primaryKey !in values
    requires Took(rows[i], values, changed[i])
    requires forall j :: 0 <= j < |rows| && j != i ==> changed[j] == rows[j]
    requires Reads(d, r, values, rows[i], before) && ReadsFaithfully(d, r, values.Keys, rows[i])
    requires forall k :: k in values ==> exists f :: f in r.fields && f.key == k
    requires Updates(changed, r.primaryKey, id, AssignmentsFor(r.fields, before), restored)
    ensures |restored| == |rows|
    ensures forall j :: 0 <= j < |rows| ==> SameRow(restored[j], rows[j])
  {
    hide AssignmentsFor, Put, ToValue;
    forall j | 0 <= j < |rows| ensures SameRow(restored[j], rows[j]) {
      if j == i {
        forall k ensures Cell(restored[i], k) == Cell(rows[i], k) {
          AssignmentsPut(r.fields, before, k);
          if k in values {
            var f :| f in r.fields && f.key == k;
            assert before[f.key] == Cell(rows[i], f.key);
          }
        }
      } else {
        assert !Same(Cell(rows[j], r.primaryKey), id);
      }
    }
  }

  // ------------------------------------------------------------ a new record

  /** The tables after one row more in one of them. */
  ghost predicate AddedOne(before: Database, table: Key, row: Row, after: Database) {
    && OnlyTable(before, table, after)
    && RowsOf(after, table) == RowsOf(before, table) + [row]
  }

  /** What the insert puts in the table. */
  function NewRow(r: Resource, s: Submission, defaults: Row): Row {
    var assignments := AssignmentsFor(r.fields, s.values);
    Assigned(defaults, KeysOf(assignments), SlotsFor(|assignments|), ValuesOf(assignments))
  }

  lemma NewRowTookTheValues(r: Resource, s: Submission, fits: (Field, Value) -> bool, defaults: Row)
    requires s.WellFormed() && DistinctFields(r.fields) && Problems(r, Creating, s, fits) == []
    ensures Took(defaults, s.values, NewRow(r, s, defaults))
  {
    hide Problems, AssignmentsFor, Put, Assigned;
    var assignments := AssignmentsFor(r.fields, s.values);
    forall k ensures Cell(NewRow(r, s, defaults), k) == if k in s.values then s.values[k] else Cell(defaults, k) {
      PutOrLeft(defaults, assignments, ValuesOf(assignments), k);
      SubmittedIsPut(r, Creating, s, fits, k);
    }
  }

  lemma InsertAnswersWithOne(db: Database, w: Write, values: seq<Value>, defaults: Row)
    requires w.Insert? && |w.columns| == |w.slots| && JoinsKeys(w.joins, db)
    ensures var row := Assigned(defaults, w.columns, w.slots, values);
            var written := Returned(row, w.returning);
      && Execute(db, w, values, defaults).1 == [Project(Env(written, Found(db, written, w.joins)), w.items)]
      && AddedOne(db, w.table, row, Execute(db, w, values, defaults).0)
  {
    hide Assigned, Returned, Found, JoinsKeys, Project, JoinAll;
    var written := Returned(Assigned(defaults, w.columns, w.slots, values), w.returning);
    RowsAreLabelled(db, [written], w.joins);
    assert Labelled(db, [written], w.joins) == [Env(written, Found(db, written, w.joins))];
    OneEach(Env(written, Found(db, written, w.joins)), w.items);
  }

  /** The record out of an inserted row, and the reading of what it was given. */
  lemma InsertedRowDecodes(
    d: Driver, db: Database, resources: Resources, fields: seq<Field>, key: Key, keys: set<Key>, row: Row)
    requires Selected(fields, resources).Ok?
    requires exists f :: f in fields && !f.sensitive && f.key == key
    requires Cell(row, key) != Null
    ensures var s := Selected(fields, resources).value;
            var written := Returned(row, ReturningList(s.entries));
            var out := Project(Env(written, Found(db, written, s.joins)), s.items);
      && RecordDtos(d, s.entries, key, [out]) == Ok([RecordOf(d, db, resources, row, fields, key)])
      && FieldValues(d, s.entries, keys, out) == Reading(d, fields, keys, row)
  {
    hide Selected, Returned, Project, Found, ReturningList, RecordDtos, RecordOf, FieldValues, Reading;
    var s := Selected(fields, resources).value;
    var written := Returned(row, ReturningList(s.entries));
    var env := Env(written, Found(db, written, s.joins));
    var left := Project(env, s.items);
    WrittenRowDecodes(d, db, resources, fields, key, row, map[]);
    assert left + map[] == left;
    BothHalvesAreRead(d, fields, resources, [], keys, env, row, map[]);
    NothingProjects(Env(map[], []));
  }

  lemma NothingProjects(env: Env)
    ensures Project(env, Values([], BEFORE_SPACE).items) == map[]
  {
  }

  /** A create, whole: one row more, holding what was submitted over what the
      table fills in by itself, answered with that row's record. A table that
      leaves the key null has the row all the same, and the caller a failure. */
  lemma ACreateIsWhatItSays(
    c: Context, definition: Definition, db: Database, r: Resource, s: Submission, fits: (Field, Value) -> bool,
    defaults: Row)
    requires Standing(c, definition, db, r) && r.creates
    requires s.WellFormed() && Problems(r, Creating, s, fits) == []
    ensures var effect := Writer.WriteRecord(c, fits, db, r, Creating, s, Null, defaults);
            var row := NewRow(r, s, defaults);
      && AddedOne(db, r.table, row, effect.db)
      && Took(defaults, s.values, row)
      && (effect.answer.Ok? <==> Cell(row, r.primaryKey) != Null)
      && (effect.answer.Err? ==> effect.answer == Err(Bug))
      && (effect.answer.Ok? ==>
           && effect.answer.value.record == RecordOf(c.driver, db, c.resources, row, r.fields, r.primaryKey)
           && effect.answer.value.before == None
           && Reads(c.driver, r, s.values, row, effect.answer.value.after))
  {
    hide Standing, Problems, AssignmentsFor, CompiledInsert, Execute, Assigned, Reads, RecordDtos, RecordOf, Took, Unique, Selected, FieldValues, Reading, NewRow, Project, Returned, DistinctFields;
    InsertStands(c, definition, db, r, s, fits, defaults);
    KeyIsUnique(c, definition, db, r);
    NewRowTookTheValues(r, s, fits, defaults);
    TouchedAreSubmitted(r, Creating, s, fits);
    AcceptedFields(r, Creating, s, fits);
    var assignments, row := AssignmentsFor(r.fields, s.values), NewRow(r, s, defaults);
    ReadingReads(c.driver, r, r.fields, s.values, row);
    var q := CompiledInsert(c.resources, r, assignments).value;
    var selection := Selected(r.fields, c.resources).value;
    if Cell(row, r.primaryKey) != Null {
      InsertedRowDecodes(c.driver, db, c.resources, r.fields, r.primaryKey, s.values.Keys, row);
    } else {
      KeylessFails(c.driver, db, c.resources, r.fields, r.primaryKey, row);
    }
  }

  /** The statement, and what running it comes to. */
  lemma InsertStands(
    c: Context, definition: Definition, db: Database, r: Resource, s: Submission, fits: (Field, Value) -> bool,
    defaults: Row)
    requires Standing(c, definition, db, r)
    requires s.WellFormed() && Problems(r, Creating, s, fits) == []
    ensures Selected(r.fields, c.resources).Ok?
    ensures var assignments, row := AssignmentsFor(r.fields, s.values), NewRow(r, s, defaults);
            var selection := Selected(r.fields, c.resources).value;
            var written := Returned(row, ReturningList(selection.entries));
      && CompiledInsert(c.resources, r, assignments).Ok?
      && var q := CompiledInsert(c.resources, r, assignments).value;
      && q.select == selection.entries
      && Execute(db, q.statement, q.values, defaults).1 ==
           [Project(Env(written, Found(db, written, selection.joins)), selection.items)]
      && AddedOne(db, r.table, row, Execute(db, q.statement, q.values, defaults).0)
  {
    hide Valid, Problems, AssignmentsFor, RefuseUnwritable, Execute, Assigned, KeysHold, Selected, IdentityField, ReturningList, Project, Found, JoinsKeys, Returned, AddedOne;
    WritesAreServed(definition, r, Creating, s, fits, Null);
    SelectionJoinsKeys(r.fields, c.resources, db);
    var q := CompiledInsert(c.resources, r, AssignmentsFor(r.fields, s.values)).value;
    InsertAnswersWithOne(db, q.statement, q.values, defaults);
  }

  lemma KeylessFails(d: Driver, db: Database, resources: Resources, fields: seq<Field>, key: Key, row: Row)
    requires Selected(fields, resources).Ok?
    requires exists f :: f in fields && !f.sensitive && f.key == key
    requires Cell(row, key) == Null
    ensures var s := Selected(fields, resources).value;
            var written := Returned(row, ReturningList(s.entries));
            RecordDtos(d, s.entries, key, [Project(Env(written, Found(db, written, s.joins)), s.items)]) == Err(Bug)
  {
    hide Selected, Returned, Project, Found, ReturningList, Decoded;
    var s := Selected(fields, resources).value;
    var written := Returned(row, ReturningList(s.entries));
    var env := Env(written, Found(db, written, s.joins));
    var out := Project(env, s.items);
    var f :| f in fields && !f.sensitive && f.key == key;
    Paging.IdentityIsSelected(fields, resources, f);
    SelectionsAlign(fields, resources);
    EachAliasReadsItsOwn(env, s, VALUE_SPACE);
    var identity := IdentityEntry(s.entries, key).value;
    var i :| 0 <= i < |s.entries| && s.entries[i] == identity;
    assert Column(out, Alias(VALUE_SPACE, i)) == Read(env, s.items[i].from);
    ReturnedCell(row, ReturningList(s.entries), key);
    assert DecodedRow(d, s.entries, identity, out) == Err(Bug);
    NoneDecodes(d, s.entries, identity, out);
  }

  lemma NoneDecodes(d: Driver, entries: seq<Entry>, identity: Entry, row: OutRow)
    requires DecodedRow(d, entries, identity, row) == Err(Bug)
    ensures DecodedRows(d, entries, identity, [row]) == Err(Bug)
  {
    assert [row][..0] == [];
    assert DecodedRows(d, entries, identity, []) == Ok([]);
  }

  lemma ANewRowNamesOnlyItself(d: Driver, before: seq<Row>, row: Row, target: Resource, named: Field, key: Value)
    requires Unique(before + [row], target.primaryKey)
    ensures NameAmong(d, before, target, named, key) == NameAmong(d, before + [row], target, named, key) <==>
            SelfName(d, target, named, row, key) == Null
  {
    hide NameAmong, ToName;
    var after := before + [row];
    assert forall j :: 0 <= j < |before| ==> after[j] == before[j];
    assert after[|before|] == row;
    NameNow(d, after, |before|, target, named, key);
    if j :| 0 <= j < |before| && Same(Cell(before[j], target.primaryKey), key) {
      NamedByTheOne(d, before, target, named, key, j);
      NamedByTheOne(d, after, target, named, key, j);
    } else {
      NamedByNone(d, before, target, named, key);
    }
  }

  lemma NewRecordsReadAlike(c: Context, definition: Definition, a: Database, b: Database, r: Resource, row: Row)
    requires Standing(c, definition, a, r) && Standing(c, definition, b, r) && AddedOne(a, r.table, row, b)
    ensures RecordOf(c.driver, a, c.resources, row, r.fields, r.primaryKey) ==
            RecordOf(c.driver, b, c.resources, row, r.fields, r.primaryKey)
            <==> NamesItselfAlike(c.driver, c.resources, r, map[], row)
  {
    hide Valid, LabelField, NameAmong, ShownField, Shown, KeysHold, Unique, NamesItsTargets;
    KeyIsUnique(c, definition, a, r);
    TargetsAreNamed(definition, r);
    var d := c.driver;
    ShownAlike(d, a, b, c.resources, row, r.fields);
    forall f | f in r.fields && !f.sensitive
      ensures f.kind.Relation? ==> f.kind.target in c.resources && LabelField(c.resources[f.kind.target]).Ok?
      ensures ShownField(d, a, c.resources, row, f) == ShownField(d, b, c.resources, row, f) <==>
              (f.kind.Relation? && c.resources[f.kind.target].table == r.table ==>
                var target := c.resources[f.kind.target];
                SelfName(d, target, LabelField(target).value, map[], Cell(row, f.key)) ==
                SelfName(d, target, LabelField(target).value, row, Cell(row, f.key)))
    {
      NamedTargetOf(r, c.resources, f);
      ShownFieldMoves(d, a, b, c.resources, r.table, row, f);
      if f.kind.Relation? && c.resources[f.kind.target].table == r.table {
        var target := c.resources[f.kind.target];
        KeysHoldAt(b, c.resources, f.kind.target);
        ANewRowNamesOnlyItself(d, RowsOf(a, r.table), row, target, LabelField(target).value, Cell(row, f.key));
      }
    }
  }

  /** The record a create answers with is the one a later read gives, exactly
      when no relation of the new row takes its name from the row itself. */
  lemma ACreateReadsBack(
    c: Context, definition: Definition, db: Database, r: Resource, s: Submission, fits: (Field, Value) -> bool,
    defaults: Row, later: Outcome<Record>)
    requires Standing(c, definition, db, r) && r.creates
    requires s.WellFormed() && Problems(r, Creating, s, fits) == []
    requires var effect := Writer.WriteRecord(c, fits, db, r, Creating, s, Null, defaults);
      && effect.answer.Ok? && KeysHold(effect.db, c.resources)
      && MayRead(c, effect.db, r, Cell(NewRow(r, s, defaults), r.primaryKey), later)
    ensures var effect := Writer.WriteRecord(c, fits, db, r, Creating, s, Null, defaults);
      && later.Ok?
      && (effect.answer.value.record == later.value <==>
          NamesItselfAlike(c.driver, c.resources, r, map[], NewRow(r, s, defaults)))
  {
    hide Valid, Problems, Writer.WriteRecord, MayRead, RecordOf, NamesItselfAlike, Reads, KeysHold, Unique, NewRow, Took;
    ACreateIsWhatItSays(c, definition, db, r, s, fits, defaults);
    var effect, row := Writer.WriteRecord(c, fits, db, r, Creating, s, Null, defaults), NewRow(r, s, defaults);
    assert Standing(c, definition, effect.db, r);
    var i := |RowsOf(db, r.table)|;
    assert RowsOf(effect.db, r.table)[i] == row;
    assert NamesRow(effect.db, r, Cell(row, r.primaryKey), i);
    AReadFindsItsRow(c, definition, effect.db, r, Cell(row, r.primaryKey), i, later);
    NewRecordsReadAlike(c, definition, db, effect.db, r, row);
  }

  // -------------------------------------------------------- one field, by action

  /** A `dbUpdate`, whole: one column of the one row its key names, and both
      readings of it. */
  lemma AnActionIsWhatItSays(
    c: Context, definition: Definition, db: Database, r: Resource, action: Action, id: Value, i: nat)
    requires Standing(c, definition, db, r) && NamesRow(db, r, id, i)
    requires action in r.actions && action.DbUpdate?
    ensures RequireField(r, action.field).Ok?
    ensures var effect := Writer.RunUpdate(c, db, r, action.field, action.value, id);
            var kind := RequireField(r, action.field).value.kind;
      && WroteOne(db, r.table, i, map[action.field := action.value], effect.db)
      && effect.answer == Ok(Writer.Change(
           map[action.field := ToValue(c.driver, kind, Cell(RowsOf(db, r.table)[i], action.field))],
           map[action.field := ToValue(c.driver, kind, action.value)]))
  {
    hide Valid, KeysHold, Unique, Execute, IdentityField, RequireField;
    UpdateActionIsServed(definition, r, action, id);
    KeyIsUnique(c, definition, db, r);
    FieldsIndexed(r.fields);
    var field := RequireField(r, action.field).value;
    assert field.key == action.field by { NamedByItsKey(r, action.field); }
    var q := CompiledSetField(r, field, action.value, id).value;
    var row := RowsOf(db, r.table)[i];
    SetFieldWritesOne(r, field, action.value, id, db, i);
    OneRowAnswers(db, q.statement, q.values, i);
    SetFieldIsRead(c.driver, db, r, field, action.value, id, row);
  }

  lemma NamedByItsKey(r: Resource, key: Key)
    requires RequireField(r, key).Ok?
    ensures RequireField(r, key).value.key == key
  {
    FieldsIndexed(r.fields);
  }

  lemma SetFieldWritesOne(r: Resource, field: Field, value: Value, id: Value, db: Database, i: nat)
    requires CompiledSetField(r, field, value, id).Ok? && IdentityField(r).Ok? && IdentityField(r).value.key == r.primaryKey
    requires Unique(RowsOf(db, r.table), r.primaryKey) && NamesRow(db, r, id, i)
    ensures var q := CompiledSetField(r, field, value, id).value;
            WroteOne(db, r.table, i, map[field.key := value], Execute(db, q.statement, q.values, map[]).0)
  {
    hide IdentityField, Unique, Execute, Changed, Assigned;
    var q, rows := CompiledSetField(r, field, value, id).value, RowsOf(db, r.table);
    forall t ensures RowsOf(Execute(db, q.statement, q.values, map[]).0, t) ==
                     if t == r.table then Changed(rows, q.statement, q.values) else RowsOf(db, t)
    {
      TablesAfter(db, q.statement, q.values, map[], t);
    }
    ChangedOnlyThere(rows, q.statement, q.values, i);
    OneAssigned(rows[i], field.key, value, [value, id]);
  }

  lemma ChangedOnlyThere(rows: seq<Row>, w: Write, values: seq<Value>, i: nat)
    requires w.Update? && |w.columns| == |w.slots|
    requires Unique(rows, w.identity) && i < |rows| && Same(Cell(rows[i], w.identity), Bound(values, w.keySlot))
    ensures Changed(rows, w, values)[i] == Assigned(rows[i], w.columns, w.slots, values)
    ensures forall j :: 0 <= j < |rows| && j != i ==> Changed(rows, w, values)[j] == rows[j]
  {
    hide Assigned;
    OnlyOneIsNamed(rows, w.identity, Bound(values, w.keySlot), i);
  }

  lemma OneAssigned(row: Row, key: Key, value: Value, values: seq<Value>)
    requires values != [] && values[0] == value
    ensures Assigned(row, [key], [1], values) == row[key := value]
  {
    assert [key][..0] == [] && [1][..0] == [];
  }

  lemma SetFieldIsRead(d: Driver, db: Database, r: Resource, field: Field, value: Value, id: Value, row: Row)
    requires CompiledSetField(r, field, value, id).Ok?
    ensures var q := CompiledSetField(r, field, value, id).value;
            var out := Answered(db, q.statement, q.values, row);
      && FieldValues(d, q.before, {field.key}, out) == map[field.key := ToValue(d, field.kind, Cell(row, field.key))]
      && FieldValues(d, q.select, {field.key}, out) == map[field.key := ToValue(d, field.kind, value)]
  {
    hide IdentityField, ToValue;
    var q := CompiledSetField(r, field, value, id).value;
    var before, after := Alias(BEFORE_SPACE, 0), Alias(VALUE_SPACE, 0);
    OneAssigned(row, field.key, value, [value, id]);
    var written := Returned(row[field.key := value], [field.key]);
    OneItem(Env(written, Found(db, written, [])), Item(Reference(Base, field.key), after));
    OneItem(Env(row, []), Item(Reference(Base, field.key), before));
  }

  lemma OneItem(env: Env, item: Item)
    ensures Project(env, [item]) == map[item.alias := Read(env, item.from)]
  {
    assert [item][..0] == [];
  }

}
