/** The seven requests an admin makes, and runs of them against one database:
    what may be answered, and what is left behind
    (packages/cli/src/connector/dispatch.ts:69-100, apps/api/src/runtime/local.executor.ts). */
module Serving {
  import opened Outcomes
  import opened Definitions
  import opened Statements
  import opened QueryBuilder
  import opened RecordsMapper
  import opened RecordValues
  import opened Validity
  import opened Reader
  import opened Writer
  import opened Servable

  datatype Request =
    | ListRecords(resource: Key, query: ListQuery)
    | GetRecord(resource: Key, id: Value)
    | ListOptions(resource: Key, term: Option<string>)
    | ListRelated(resource: Key, id: Value, relationship: Key, query: ListQuery)
    | CreateRecord(resource: Key, submission: Submission, defaults: Row)
    | UpdateRecord(resource: Key, id: Value, submission: Submission)
    | RunAction(resource: Key, id: Value, action: Key)
  {
    ghost predicate WellFormed() {
      (CreateRecord? || UpdateRecord?) ==> submission.WellFormed()
    }
  }

  datatype Answer =
    | Listed(page: Outcome<RecordList>)
    | Got(record: Outcome<Record>)
    | Offered(offers: Outcome<seq<Offer>>)
    | Saved(saved: Outcome<Writer.Written>)
    | Moved(change: Outcome<Change>)
    | Called(address: Outcome<string>)

  /** How values are told apart and written out, outside any one definition. */
  datatype Texts = Texts(fits: (Field, Value) -> bool, write: Value -> string)

  function RequireAction(actions: seq<Action>, key: Key): Outcome<Action> {
    if actions == [] then Err(NotFound)
    else if actions[0].key == key then Ok(actions[0])
    else RequireAction(actions[1..], key)
  }

  function Saving(c: Context, t: Texts, db: Database, request: Request): Effect<Writer.Written>
    requires request.WellFormed() && (request.CreateRecord? || request.UpdateRecord?)
  {
    if request.resource !in c.resources then Effect(Err(NotFound), db)
    else
      var r := c.resources[request.resource];
      match request
      case CreateRecord(_, s, defaults) => WriteRecord(c, t.fits, db, r, Creating, s, Null, defaults)
      case UpdateRecord(_, id, s) => WriteRecord(c, t.fits, db, r, Updating, s, id, map[])
  }

  function Acting(c: Context, request: Request): Outcome<(Resource, Action)>
    requires request.RunAction?
  {
    var r :- RequireResource(c.resources, request.resource);
    var action :- RequireAction(r.actions, request.action);
    Ok((r, action))
  }

  ghost predicate MayAnswer(c: Context, t: Texts, db: Database, request: Request, answer: Answer)
    requires request.WellFormed()
  {
    match request
    case ListRecords(key, query) => answer.Listed? && MayList(c, db, key, query, answer.page)
    case GetRecord(key, id) => answer.Got? && MayGet(c, db, key, id, answer.record)
    case ListOptions(key, term) => answer.Offered? && MayOffer(c, db, key, term, answer.offers)
    case ListRelated(key, id, relationship, query) =>
      answer.Listed? && MayRelate(c, db, key, id, relationship, query, answer.page)
    case CreateRecord(_, _, _) => answer == Saved(Saving(c, t, db, request).answer)
    case UpdateRecord(_, _, _) => answer == Saved(Saving(c, t, db, request).answer)
    case RunAction(_, id, _) => MayAct(c, t, db, Acting(c, request), id, answer)
  }

  ghost predicate MayAct(
    c: Context, t: Texts, db: Database, named: Outcome<(Resource, Action)>, id: Value, answer: Answer)
  {
    match named
    case Err(failure) => answer == Moved(Err(failure))
    case Ok((r, DbUpdate(_, field, value, _))) => answer == Moved(RunUpdate(c, db, r, field, value, id).answer)
    case Ok((r, HttpCall(_, url, _))) => answer.Called? && MayCall(c, db, r, url, id, t.write, answer.address)
  }

  /** The tables once a request has been served; a read leaves them be. */
  function After(c: Context, t: Texts, db: Database, request: Request): Database
    requires request.WellFormed()
  {
    match request
    case CreateRecord(_, _, _) => Saving(c, t, db, request).db
    case UpdateRecord(_, _, _) => Saving(c, t, db, request).db
    case RunAction(_, id, _) =>
      (match Acting(c, request)
       case Ok((r, DbUpdate(_, field, value, _))) => RunUpdate(c, db, r, field, value, id).db
       case _ => db)
    case _ => db
  }

  /** One request after another, each against what the last one left. */
  ghost predicate MayRun(c: Context, t: Texts, db: Database, requests: seq<Request>, answers: seq<Answer>)
    requires forall r :: r in requests ==> r.WellFormed()
    decreases |requests|
  {
    if requests == [] then answers == []
    else
      && answers != []
      && MayAnswer(c, t, db, requests[0], answers[0])
      && MayRun(c, t, After(c, t, db, requests[0]), requests[1..], answers[1..])
  }

  // ------------------------------------------------------- a valid definition

  /** What is served is a valid definition's own resources. */
  ghost predicate Serves(c: Context, definition: Definition) {
    Valid(definition) && c.resources == IndexResources(definition.resources)
  }

  lemma Declares(c: Context, definition: Definition, key: Key)
    requires Serves(c, definition) && key in c.resources
    ensures c.resources[key] in definition.resources
  {
    Indexed(definition, key);
  }

  lemma OwnerFieldIsDeclared(target: Resource, x: Relationship)
    requires OwnerField(target, x).Ok?
    ensures OwnerField(target, x).value in target.fields
  {
    FieldsIndexed(target.fields);
  }

  lemma TravelFieldIsDeclared(parent: Resource, x: Relationship)
    requires TravelField(parent, x).Ok?
    ensures TravelField(parent, x).value in parent.fields
  {
    FieldsIndexed(parent.fields);
  }
}
