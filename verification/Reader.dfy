/** Reads, end to end: a request, the statements it becomes, whatever the server
    may answer, and what is made of that
    (packages/engine/src/read/record-reader.ts, packages/engine/src/resources.ts).
    A server is free to order ties as it likes, so each read is the relation of
    a request to the answers it may come to. */
module Reader {
  import opened Outcomes
  import opened Definitions
  import opened Statements
  import opened Columns
  import opened QueryBuilder
  import opened RecordsMapper

  datatype RecordList = RecordList(records: seq<Record>, total: nat, page: nat, pageSize: nat)

  /** An entry of a picker: a key and the label shown for it. */
  datatype Offer = Offer(id: Value, name: Value)

  /** Where a definition is served from, and what tells its texts apart. */
  datatype Context = Context(pg: Postgres, driver: Driver, resources: Resources, parses: string -> bool)

  function RequireResource(resources: Resources, key: Key): Outcome<Resource> {
    if key in resources then Ok(resources[key]) else Err(NotFound)
  }

  function RequireRelationship(relationships: seq<Relationship>, key: Key): Outcome<Relationship> {
    if relationships == [] then Err(NotFound)
    else if relationships[0].key == key then Ok(relationships[0])
    else RequireRelationship(relationships[1..], key)
  }

  // ------------------------------------------------------------------ pages

  function PageOf(c: Context, r: Resource, entries: seq<Entry>, rows: seq<OutRow>, total: nat, query: ListQuery)
    : Outcome<RecordList>
  {
    var records :- RecordDtos(c.driver, entries, r.primaryKey, rows);
    Ok(RecordList(records, total, query.page, query.pageSize))
  }

  /** The page and its count are asked of one state of the tables. */
  ghost predicate MayPage(
    c: Context, db: Database, r: Resource, query: ListQuery, owner: Option<Ownership>, answer: Outcome<RecordList>)
  {
    match CompiledRecords(c.resources, r, query, owner, c.parses)
    case Err(failure) => answer == Err(failure)
    case Ok(queries) =>
      var total := Counted(c.pg, db, queries.total.statement, queries.total.values);
      exists rows ::
        Answers(c.pg, db, queries.rows.statement, queries.rows.values, rows) &&
        answer == PageOf(c, r, queries.rows.select, rows, total, query)
  }

  ghost predicate MayList(c: Context, db: Database, key: Key, query: ListQuery, answer: Outcome<RecordList>) {
    match RequireResource(c.resources, key)
    case Err(failure) => answer == Err(failure)
    case Ok(r) => MayPage(c, db, r, query, None, answer)
  }

  // ------------------------------------------------------------- one record

  function RecordFrom(c: Context, r: Resource, entries: seq<Entry>, rows: seq<OutRow>): Outcome<Record> {
    var records :- RecordDtos(c.driver, entries, r.primaryKey, rows);
    if records == [] then Err(NotFound) else Ok(records[0])
  }

  ghost predicate MayRead(c: Context, db: Database, r: Resource, id: Value, answer: Outcome<Record>) {
    match CompiledRecord(c.resources, r, id)
    case Err(failure) => answer == Err(failure)
    case Ok(q) =>
      exists rows :: Answers(c.pg, db, q.statement, q.values, rows) && answer == RecordFrom(c, r, q.select, rows)
  }

  ghost predicate MayGet(c: Context, db: Database, key: Key, id: Value, answer: Outcome<Record>) {
    match RequireResource(c.resources, key)
    case Err(failure) => answer == Err(failure)
    case Ok(r) => MayRead(c, db, r, id, answer)
  }

  // ---------------------------------------------------------------- options

  /** packages/engine/src/read/records.mapper.ts:68-79 */
  function OfferOf(d: Driver, named: Field, row: OutRow): Outcome<Offer> {
    var id := Column(row, Alias(VALUE_SPACE, 0));
    if id == Null then Err(Bug)
    else Ok(Offer(ToId(d, id), ToName(d, named.kind, Column(row, Alias(VALUE_SPACE, 1)))))
  }

  function Offers(d: Driver, named: Field, rows: seq<OutRow>): Outcome<seq<Offer>> {
    if rows == [] then Ok([])
    else
      var first :- OfferOf(d, named, rows[0]);
      var rest :- Offers(d, named, rows[1..]);
      Ok([first] + rest)
  }

  function OffersFrom(c: Context, r: Resource, rows: seq<OutRow>): Outcome<seq<Offer>> {
    var named :- LabelField(r);
    Offers(c.driver, named, rows)
  }

  ghost predicate MayOffer(c: Context, db: Database, key: Key, term: Option<string>, answer: Outcome<seq<Offer>>) {
    match RequireResource(c.resources, key)
    case Err(failure) => answer == Err(failure)
    case Ok(r) =>
      match CompiledOptions(r, term)
      case Err(failure) => answer == Err(failure)
      case Ok(q) =>
        exists rows :: Answers(c.pg, db, q.statement, q.values, rows) && answer == OffersFrom(c, r, rows)
  }

  // ----------------------------------------------------------- related lists

  /** What the record in the URL is asked for: the key it points by, or whether
      it is there at all. */
  function TravelField(parent: Resource, x: Relationship): Outcome<Field> {
    if x.kind == BelongsTo then RequireField(parent, x.foreignKey) else IdentityField(parent)
  }

  /** The column of the target that narrows the page. */
  function OwnerField(target: Resource, x: Relationship): Outcome<Field> {
    if x.kind == BelongsTo then IdentityField(target) else RequireField(target, x.foreignKey)
  }

  function Asked(parent: Resource, x: Relationship, id: Value): Outcome<Query<Select>> {
    var field :- TravelField(parent, x);
    CompiledLookup(parent, id, field)
  }

  /** The record pointed at, or the record pointed from. */
  function OwnerId(x: Relationship, id: Value, row: OutRow): Value {
    if x.kind == BelongsTo then Column(row, LOOKUP) else id
  }

  /** The page, once the lookup has answered. */
  ghost predicate MayFollow(
    c: Context, db: Database, target: Resource, x: Relationship, id: Value, found: seq<OutRow>, query: ListQuery,
    answer: Outcome<RecordList>)
  {
    if found == [] then answer == Err(NotFound)
    else if x.kind == BelongsTo && OwnerId(x, id, found[0]) == Null then
      answer == Ok(RecordList([], 0, query.page, query.pageSize))
    else
      match OwnerField(target, x)
      case Err(failure) => answer == Err(failure)
      case Ok(field) => MayPage(c, db, target, query, Some(Ownership(field, OwnerId(x, id, found[0]))), answer)
  }

  ghost predicate MayTravel(
    c: Context, db: Database, parent: Resource, target: Resource, x: Relationship, id: Value, query: ListQuery,
    answer: Outcome<RecordList>)
  {
    match Asked(parent, x, id)
    case Err(failure) => answer == Err(failure)
    case Ok(q) =>
      exists found ::
        Answers(c.pg, db, q.statement, q.values, found) && MayFollow(c, db, target, x, id, found, query, answer)
  }

  ghost predicate MayRelate(
    c: Context, db: Database, key: Key, id: Value, relationship: Key, query: ListQuery, answer: Outcome<RecordList>)
  {
    match RequireResource(c.resources, key)
    case Err(failure) => answer == Err(failure)
    case Ok(parent) =>
      match RequireRelationship(parent.relationships, relationship)
      case Err(failure) => answer == Err(failure)
      case Ok(x) =>
        match RequireResource(c.resources, x.target)
        case Err(failure) => answer == Err(failure)
        case Ok(target) => MayTravel(c, db, parent, target, x, id, query, answer)
  }
}
