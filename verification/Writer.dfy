/** Writes, end to end: a form's values or an action's literal, the statement
    they become, what the statement leaves in the tables, and what is answered
    and accounted for (packages/engine/src/write/record-writer.ts,
    packages/engine/src/actions/action-runner.ts). */
module Writer {
  import opened Outcomes
  import opened Definitions
  import opened Statements
  import opened Columns
  import opened QueryBuilder
  import opened RecordsMapper
  import opened RecordValues
  import opened WriteStatements
  import opened ActionUrls
  import opened Reader

  type AuditValues = map<Key, Value>

  /** What a write answers with. `before` is `None` of a create, and otherwise has
      the keys `after` has. */
  datatype Written = Written(record: Record, before: Option<AuditValues>, after: AuditValues)

  /** What a `dbUpdate` moved, on both sides of it. */
  datatype Change = Change(before: AuditValues, after: AuditValues)

  /** What came of something that may have changed the tables. */
  datatype Effect<+T> = Effect(answer: Outcome<T>, db: Database)

  predicate OffersMode(r: Resource, mode: Mode) {
    if mode == Creating then r.creates else r.updates
  }

  /** The fields that could not be written, by key. */
  function Refusals(problems: seq<Problem>): seq<Key> {
    if problems == [] then []
    else
      (match problems[0] case NothingSubmitted => [] case p => [p.key]) + Refusals(problems[1..])
  }

  function Compiled(c: Context, r: Resource, mode: Mode, assignments: seq<Assignment>, id: Value)
    : (q: Outcome<Query<Write>>)
    ensures q.Ok? ==> |q.value.statement.columns| == |q.value.statement.slots|
  {
    if mode == Creating then CompiledInsert(c.resources, r, assignments)
    else CompiledUpdate(c.resources, r, assignments, id)
  }

  function Touched(assignments: seq<Assignment>): set<Key> {
    set a | a in assignments :: a.field.key
  }

  function AuditOf(d: Driver, entries: seq<Entry>, touched: set<Key>, rows: seq<OutRow>): AuditValues {
    if rows == [] then map[] else FieldValues(d, entries, touched, rows[0])
  }

  /** What the writer makes of the rows its statement answered with. */
  function WrittenFrom(
    c: Context, r: Resource, mode: Mode, q: Query<Write>, assignments: seq<Assignment>, rows: seq<OutRow>)
    : Outcome<Written>
  {
    var records :- RecordDtos(c.driver, q.select, r.primaryKey, rows);
    if records == [] then (if mode == Updating then Err(NotFound) else Err(Bug))
    else
      var touched := Touched(assignments);
      Ok(Written(
        records[0],
        if mode == Updating then Some(AuditOf(c.driver, q.before, touched, rows)) else None,
        AuditOf(c.driver, q.select, touched, rows)))
  }

  /** record-writer.ts:154-193; `defaults` is what the table gives a new row. */
  function WriteRecord(
    c: Context, fits: (Field, Value) -> bool, db: Database, r: Resource, mode: Mode, s: Submission, id: Value, defaults: Row)
    : Effect<Written>
    requires s.WellFormed()
  {
    var problems := Problems(r, mode, s, fits);
    var assignments := AssignmentsFor(r.fields, s.values);
    var q := Compiled(c, r, mode, assignments, id);
    if !OffersMode(r, mode) then Effect(Err(WriteRefused), db)
    else if problems != [] then Effect(Err(ValidationFailed(Refusals(problems))), db)
    else if q.Err? then Effect(Err(q.failure), db)
    else
      var (after, rows) := Execute(db, q.value.statement, q.value.values, defaults);
      Effect(WrittenFrom(c, r, mode, q.value, assignments, rows), after)
  }

  function ChangeFrom(c: Context, field: Field, q: Query<Write>, rows: seq<OutRow>): Outcome<Change> {
    if rows == [] then Err(NotFound)
    else Ok(Change(AuditOf(c.driver, q.before, {field.key}, rows), AuditOf(c.driver, q.select, {field.key}, rows)))
  }

  /** action-runner.ts:147-167 */
  function RunUpdate(c: Context, db: Database, r: Resource, key: Key, value: Value, id: Value): Effect<Change> {
    var field := RequireField(r, key);
    if field.Err? then Effect(Err(field.failure), db)
    else
      var q := CompiledSetField(r, field.value, value, id);
      if q.Err? then Effect(Err(q.failure), db)
      else
        var (after, rows) := Execute(db, q.value.statement, q.value.values, map[]);
        Effect(ChangeFrom(c, field.value, q.value, rows), after)
  }

  /** action-runner.ts:184-197: the address is made of what the record holds now. */
  ghost predicate MayCall(
    c: Context, db: Database, r: Resource, url: string, id: Value, write: Value -> string, address: Outcome<string>)
  {
    exists record ::
      MayRead(c, db, r, id, record) &&
      address == (match record
                  case Err(failure) => Err(failure)
                  case Ok(found) => ActionUrl(r, url, found.values, write))
  }
}
