/** The seven requests of an admin, served over a connector: what each comes to
    on the wire (packages/cli/src/connector/dispatch.ts:69-100,
    apps/api/src/runtime/connector.executor.ts:55-138). */
module Hops {
  import opened Outcomes
  import opened Definitions
  import opened Statements
  import opened Reader
  import opened FrameErrors
  import opened Rungs
  import opened Serving
  import opened Writer

  /** How answers are carried and named, and what the customer's application says
      to a call. */
  datatype Wire = Wire(dto: Answer -> Dto, subject: Request -> nat, call: string -> Option<Thrown>)

  /** A call comes to nothing in one of four ways, each the engine's own word. */
  ghost predicate CallsFail(call: string -> Option<Thrown>) {
    forall address :: call(address).Some? ==> call(address).value.ActionFailedError?
  }

  function ThrownFor(failure: Failure): Thrown {
    match failure
    case Bug => Foreign("bug")
    case Unservable => UnservableResourceError("unservable")
    case InvalidQuery => InvalidQueryError("query")
    case NotFound => NotFoundError("missing")
    case WriteRefused => WriteRefusedError("refused")
    case ValidationFailed(fields) => ValidationFailedError("invalid", fields)
  }

  function ReadFor<T>(outcome: Outcome<T>, dto: Dto): Work {
    match outcome
    case Ok(_) => Reads(dto)
    case Err(failure) => Fails(ThrownFor(failure))
  }

  function NamedFor<T>(kind: Kind, subject: nat, outcome: Outcome<T>, dto: Dto): Work {
    match outcome
    case Ok(_) => Does(kind, subject, dto)
    case Err(failure) => Meets(kind, subject, ThrownFor(failure))
  }

  /** An address the application turned away is a call that failed. */
  function CalledFor(subject: nat, address: Outcome<string>, dto: Dto, call: string -> Option<Thrown>): Work {
    if address.Ok? && call(address.value).Some? then Meets(Rungs.HttpCall, subject, call(address.value).value)
    else NamedFor(Rungs.HttpCall, subject, address, dto)
  }

  /** What the engine's answer comes to. A write is named once its resource is
      there, and an action once it is. */
  function WorkFor(c: Context, w: Wire, request: Request, answer: Answer): Work {
    match answer
    case Listed(page) => ReadFor(page, w.dto(answer))
    case Got(record) => ReadFor(record, w.dto(answer))
    case Offered(offers) => ReadFor(offers, w.dto(answer))
    case Saved(saved) => NamedFor(Form, w.subject(request), saved, w.dto(answer))
    case Moved(change) =>
      if request.RunAction? && Acting(c, request).Err? then ReadFor(change, w.dto(answer))
      else NamedFor(Rungs.DbUpdate, w.subject(request), change, w.dto(answer))
    case Called(address) => CalledFor(w.subject(request), address, w.dto(answer), w.call)
  }

  /** The kind Cloud reads off its own copy of the definition. */
  function KindFor(c: Context, request: Request): Option<Kind> {
    match request
    case CreateRecord(_, _, _) => Some(Form)
    case UpdateRecord(_, _, _) => Some(Form)
    case RunAction(_, _, _) =>
      (match Acting(c, request)
       case Ok((_, DbUpdate(_, _, _, _))) => Some(Rungs.DbUpdate)
       case Ok((_, HttpCall(_, _, _))) => Some(Rungs.HttpCall)
       case Err(_) => None)
    case _ => None
  }

  function AskedFor(c: Context, w: Wire, request: Request, answer: Answer): Asked {
    Asked(request.resource in c.resources, "missing", KindFor(c, request), WorkFor(c, w, request, answer))
  }

  /** Both ends hold one definition, so Cloud knows the kind of what was done. */
  lemma KindsAgree(c: Context, t: Texts, w: Wire, db: Database, request: Request, answer: Answer)
    requires request.WellFormed() && MayAnswer(c, t, db, request, answer)
    ensures AskedFor(c, w, request, answer).Agreed()
  {
    hide MayList, MayGet, MayOffer, MayRelate, Saving;
  }

  lemma FailuresAreOurs(c: Context, w: Wire, request: Request, answer: Answer)
    requires CallsFail(w.call)
    ensures Nameable(WorkFor(c, w, request, answer))
    ensures var work := WorkFor(c, w, request, answer);
      work.Fails? || work.Meets? ==> work.failure.WellFormed()
  {
    hide Acting;
  }

  /** Each of the seven requests, whatever the engine may answer it from the tables
      and however the log may refuse: a caller is shown the same over a connector
      as without one, and the log is handed the same events in the same order. */
  lemma EveryRequestIsServedAlike(
    c: Context, t: Texts, w: Wire, db: Database, request: Request, answer: Answer, sink: Sink, attempts: seq<Event>)
    requires request.WellFormed() && MayAnswer(c, t, db, request, answer) && CallsFail(w.call)
    ensures var asked := AskedFor(c, w, request, answer);
      && SeenOf(Connected(asked, sink, attempts).reply) == SeenOf(Local(asked, sink, attempts).reply)
      && Connected(asked, sink, attempts).attempts == Local(asked, sink, attempts).attempts
  {
    hide MayAnswer, WorkFor, Connected, Local, KindFor;
    KindsAgree(c, t, w, db, request, answer);
    FailuresAreOurs(c, w, request, answer);
    TheRungsAreOne(AskedFor(c, w, request, answer), sink, attempts);
  }

  // ---------------------------------------------- what a caller is told, and the log

  /** What stood in the way of a request, if anything: a refusal of the engine's
      own, or what a call of the customer's application came to. */
  datatype Met = Nothing | Refusal(failure: Failure) | ACall(action: ActionCode)

  function MetBy<T>(outcome: Outcome<T>): Met {
    match outcome
    case Ok(_) => Nothing
    case Err(failure) => Refusal(failure)
  }

  function MetIn(answer: Answer, call: string -> Option<Thrown>): Met
    requires CallsFail(call)
  {
    match answer
    case Listed(page) => MetBy(page)
    case Got(record) => MetBy(record)
    case Offered(offers) => MetBy(offers)
    case Saved(saved) => MetBy(saved)
    case Moved(change) => MetBy(change)
    case Called(Err(failure)) => Refusal(failure)
    case Called(Ok(address)) => if call(address).Some? then ACall(call(address).value.action) else Nothing
  }

  /** The status and the code each is told with
      (apps/api/src/errors/domain-exception.filter.ts:64-87). */
  function StatusAndCode(met: Met): (nat, string)
    requires !met.Nothing?
  {
    match met
    case Refusal(Bug) => (500, "internal_error")
    case Refusal(Unservable) => (500, "unservable_resource")
    case Refusal(InvalidQuery) => (400, "invalid_query")
    case Refusal(NotFound) => (404, "not_found")
    case Refusal(WriteRefused) => (403, "write_refused")
    case Refusal(ValidationFailed(_)) => (422, "validation_failed")
    case ACall(Rejected) => (502, "action_rejected")
    case ACall(Unreachable) => (502, "action_unreachable")
    case ACall(TookTooLong) => (504, "action_timeout")
    case ACall(Failed) => (502, "action_failed")
  }

  /** What is the caller's to mend is recorded as refused, the rest as broken. */
  function RecordedFor(met: Met): Standing {
    match met
    case Nothing => Accepted
    case Refusal(failure) => if failure.Bug? || failure.Unservable? then BrokeDown else RefusedIt
    case ACall(action) => if action.Rejected? then RefusedIt else BrokeDown
  }

  /** Shown to a caller: its error, and for a submission the keys at fault. */
  predicate Shows(seen: Seen, met: Met, dto: Dto) {
    if met.Nothing? then seen == Result(dto)
    else
      && seen.Error?
      && (seen.envelope.status, seen.envelope.code) == StatusAndCode(met)
      && seen.envelope.details ==
         if met.Refusal? && met.failure.ValidationFailed? then Some(met.failure.fields) else None
  }

  /** Whether a request is one the log is to hear of: a write to a resource there
      is, or an action it has. */
  ghost predicate Accountable(c: Context, request: Request) {
    && request.resource in c.resources
    && (|| request.CreateRecord?
        || request.UpdateRecord?
        || (request.RunAction? && exists a :: a in c.resources[request.resource].actions && a.key == request.action))
  }

  /** How a request is to be served, whichever way it is. */
  ghost predicate ServedAs(
    c: Context, w: Wire, request: Request, answer: Answer, sink: Sink, attempts: seq<Event>, seen: Seen,
    filed: seq<Event>)
    requires CallsFail(w.call)
  {
    var met := MetIn(answer, w.call);
    if !Accountable(c, request) then filed == attempts && Shows(seen, met, w.dto(answer))
    else
      var event :=
        Event(w.subject(request), RecordedFor(met), if met.Nothing? then None else Some(StatusAndCode(met).1));
      var refusal := sink(attempts, event);
      && filed == attempts + [event]
      && if met.Nothing? && !answer.Called? && refusal.Some? then seen == Error(EnvelopeOf(refusal.value))
         else Shows(seen, met, w.dto(answer))
  }

  lemma {:induction false} ActionsAreFound(actions: seq<Action>, key: Key)
    ensures RequireAction(actions, key).Ok? <==> exists a :: a in actions && a.key == key
    ensures RequireAction(actions, key).Err? ==> RequireAction(actions, key) == Err(NotFound)
  {
    if actions != [] {
      ActionsAreFound(actions[1..], key);
      assert actions == [actions[0]] + actions[1..];
    }
  }

  lemma AFailureIsTold(failure: Failure, subject: nat, dto: Dto)
    ensures Shows(Error(EnvelopeOf(ThrownFor(failure))), Refusal(failure), dto)
    ensures FailureOf(subject, ThrownFor(failure)) ==
            Event(subject, RecordedFor(Refusal(failure)), Some(StatusAndCode(Refusal(failure)).1))
  {
  }

  lemma ACallIsTold(t: Thrown, subject: nat, dto: Dto)
    requires t.ActionFailedError?
    ensures Shows(Error(EnvelopeOf(t)), ACall(t.action), dto)
    ensures FailureOf(subject, t) == Event(subject, RecordedFor(ACall(t.action)), Some(StatusAndCode(ACall(t.action)).1))
  {
  }

  /** An error is the one that tells of what was met. */
  predicate TellsOf(t: Thrown, met: Met) {
    match met
    case Nothing => false
    case Refusal(failure) => t == ThrownFor(failure)
    case ACall(action) => t.ActionFailedError? && t.action == action
  }

  lemma WhatIsToldOf(t: Thrown, met: Met, subject: nat, dto: Dto)
    requires TellsOf(t, met)
    ensures Shows(Error(EnvelopeOf(t)), met, dto)
    ensures FailureOf(subject, t) == Event(subject, RecordedFor(met), Some(StatusAndCode(met).1))
  {
    match met
    case Refusal(failure) => AFailureIsTold(failure, subject, dto);
    case ACall(_) => ACallIsTold(t, subject, dto);
  }

  /** The engine's work on a request, from what it may answer. */
  lemma WorkSays(c: Context, t: Texts, w: Wire, db: Database, request: Request, answer: Answer)
    requires request.WellFormed() && MayAnswer(c, t, db, request, answer) && CallsFail(w.call)
    requires request.resource in c.resources
    ensures var work, met := WorkFor(c, w, request, answer), MetIn(answer, w.call);
      && (Accountable(c, request) <==> work.Does? || work.Meets?)
      && (met.Nothing? <==> work.Reads? || work.Does?)
      && (work.Reads? ==> work.page == w.dto(answer))
      && (work.Does? ==> work.result == w.dto(answer))
      && (work.Does? || work.Meets? ==>
           work.subject == w.subject(request) && (work.kind == Rungs.HttpCall <==> answer.Called?))
      && (work.Fails? || work.Meets? ==> TellsOf(work.failure, met))
  {
    hide MayList, MayGet, MayOffer, MayRelate, Saving, MayCall, RunUpdate;
    if request.RunAction? {
      ActionsAreFound(c.resources[request.resource].actions, request.action);
    }
  }

  /** Where there is no such resource, the answer is that it is not there. */
  lemma NoResourceSays(c: Context, t: Texts, db: Database, request: Request, answer: Answer, call: string -> Option<Thrown>)
    requires request.WellFormed() && MayAnswer(c, t, db, request, answer) && CallsFail(call)
    requires request.resource !in c.resources
    ensures MetIn(answer, call) == Refusal(NotFound)
  {
    hide MayPage, MayRead, MayTravel, MayCall, RunUpdate, WriteRecord;
  }

  /** Served in this process: told what was met and nothing else, and put to the
      log exactly when it is accountable. */
  lemma EveryRequestIsServedAsItShould(
    c: Context, t: Texts, w: Wire, db: Database, request: Request, answer: Answer, sink: Sink, attempts: seq<Event>)
    requires request.WellFormed() && MayAnswer(c, t, db, request, answer) && CallsFail(w.call)
    ensures var asked := AskedFor(c, w, request, answer);
      && ServedAs(c, w, request, answer, sink, attempts,
                  SeenOf(Local(asked, sink, attempts).reply), Local(asked, sink, attempts).attempts)
      && ServedAs(c, w, request, answer, sink, attempts,
                  SeenOf(Connected(asked, sink, attempts).reply), Connected(asked, sink, attempts).attempts)
  {
    hide MayAnswer, WorkFor, KindFor, Connected, EnvelopeOf, RecordedAs, FailureOf, StatusAndCode, MetIn, TellsOf;
    EveryRequestIsServedAlike(c, t, w, db, request, answer, sink, attempts);
    var met, work := MetIn(answer, w.call), WorkFor(c, w, request, answer);
    if request.resource !in c.resources {
      NoResourceSays(c, t, db, request, answer, w.call);
      AFailureIsTold(NotFound, 0, w.dto(answer));
    } else {
      WorkSays(c, t, w, db, request, answer);
      if work.Fails? || work.Meets? {
        WhatIsToldOf(work.failure, met, w.subject(request), w.dto(answer));
      }
    }
  }
}
