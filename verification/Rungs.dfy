/** Two ways to serve a request: the engine in this process, or at the far end of
    a connector (apps/api/src/runtime/local.executor.ts, connector.executor.ts,
    packages/cli/src/connector/dispatch.ts). */
module Rungs {
  import opened Outcomes
  import opened FrameErrors

  /** What the engine answers with. It is carried, and never looked into. */
  type Dto = nat

  datatype Standing = Accepted | RefusedIt | BrokeDown

  /** A line of the audit log, as the engine writes it. */
  datatype Event = Event(subject: nat, outcome: Standing, reason: Option<string>)

  datatype Kind = Form | DbUpdate | HttpCall

  /** What the work a request names comes to, once it is under way: a read, or
      a write or action with what it filed against its name, or a failure that
      came before anything was named. */
  datatype Work =
    | Fails(failure: Thrown)
    | Reads(page: Dto)
    | Does(kind: Kind, subject: nat, result: Dto)
    | Meets(kind: Kind, subject: nat, failure: Thrown)

  datatype Reply = Answers(result: Dto) | Throws(thrown: Thrown)

  /** outcome.ts: the codes somebody decided on. */
  function RecordedAs(t: Thrown): (Standing, string) {
    var reason := if t.Foreign? then INTERNAL else t.Code();
    if reason in ["conflict", "validation_failed", "write_refused", "not_found", "invalid_query", "action_rejected"]
    then (RefusedIt, reason) else (BrokeDown, reason)
  }

  function SuccessOf(subject: nat): Event {
    Event(subject, Accepted, None)
  }

  function FailureOf(subject: nat, t: Thrown): Event {
    Event(subject, RecordedAs(t).0, Some(RecordedAs(t).1))
  }

  /** Whether the log takes an event, and what it throws if it will not. */
  type Sink = (seq<Event>, Event) -> Option<Thrown>

  // ---------------------------------------------------------------- the log

  /** Where events are filed. `attempts` are all it was ever handed. */
  class AuditLog {
    const sink: Sink
    var attempts: seq<Event>

    constructor (sink: Sink, attempts: seq<Event>)
      ensures this.sink == sink && this.attempts == attempts
    {
      this.sink, this.attempts := sink, attempts;
    }

    method Audit(event: Event) returns (refusal: Option<Thrown>)
      modifies this
      ensures attempts == old(attempts) + [event]
      ensures refusal == sink(old(attempts), event)
    {
      refusal := sink(attempts, event);
      attempts := attempts + [event];
    }
  }

  /** What a request leaves: the reply, and what the log was handed by then. */
  datatype Served = Served(reply: Reply, attempts: seq<Event>)

  // -------------------------------------------------------------- the engine

  /** A success is not told until it is filed, except an `httpCall`'s, which
      cannot be taken back; a failure is filed as well as may be. */
  function Performed(work: Work, sink: Sink, attempts: seq<Event>): Served {
    match work
    case Fails(failure) => Served(Throws(failure), attempts)
    case Reads(page) => Served(Answers(page), attempts)
    case Does(kind, subject, result) =>
      var refusal := sink(attempts, SuccessOf(subject));
      Served(
        if refusal.Some? && kind != HttpCall then Throws(refusal.value) else Answers(result),
        attempts + [SuccessOf(subject)])
    case Meets(_, subject, failure) => Served(Throws(failure), attempts + [FailureOf(subject, failure)])
  }

  method Perform(work: Work, log: AuditLog) returns (reply: Reply)
    modifies log
    ensures Served(reply, log.attempts) == Performed(work, log.sink, old(log.attempts))
  {
    if work.Fails? {
      return Throws(work.failure);
    }
    if work.Reads? {
      return Answers(work.page);
    }
    if work.Meets? {
      var _ := log.Audit(FailureOf(work.subject, work.failure));
      return Throws(work.failure);
    }
    var refusal := log.Audit(SuccessOf(work.subject));
    if work.kind == HttpCall {
      return Answers(work.result);
    }
    return if refusal.Some? then Throws(refusal.value) else Answers(work.result);
  }

  // ---------------------------------------------------------- the local rung

  /** `None` when the definition has no such resource. */
  datatype Asked = Asked(known: bool, missing: string, kind: Option<Kind>, work: Work) {
    /** With equal definitions at both ends, Cloud reads the action's kind off
        the same declaration the engine runs. */
    predicate Agreed() {
      && (work.Does? || work.Meets? ==> kind == Some(work.kind))
    }
  }

  function Local(asked: Asked, sink: Sink, attempts: seq<Event>): Served {
    if !asked.known then Served(Throws(NotFoundError(asked.missing)), attempts)
    else Performed(asked.work, sink, attempts)
  }

  method ServeLocally(asked: Asked, log: AuditLog) returns (reply: Reply)
    modifies log
    ensures Served(reply, log.attempts) == Local(asked, log.sink, old(log.attempts))
  {
    if !asked.known {
      return Throws(NotFoundError(asked.missing));
    }
    reply := Perform(asked.work, log);
  }

  // ------------------------------------------------------ the connector rung

  datatype Crossed = Crossed(outcome: Result, audit: seq<Event>)
  datatype Result = Yes(result: Dto) | No(error: FrameError)

  /** The far end: the engine over a log that takes everything, and keeps it. */
  function FarEnd(work: Work): Crossed {
    var served := Performed(work, (_, _) => None, []);
    Crossed(
      match served.reply
      case Answers(result) => Yes(result)
      case Throws(thrown) => No(FrameErrorOf(thrown)),
      served.attempts)
  }

  method Serve(work: Work) returns (crossed: Crossed)
    ensures crossed == FarEnd(work)
  {
    var audit := new AuditLog((_, _) => None, []);
    var reply := Perform(work, audit);
    match reply
    case Answers(result) => return Crossed(Yes(result), audit.attempts);
    case Throws(thrown) => return Crossed(No(FrameErrorOf(thrown)), audit.attempts);
  }

  /** The first refusal that counts ends it. */
  function Filing(events: seq<Event>, accountable: bool, sink: Sink, attempts: seq<Event>): (Option<Thrown>, seq<Event>)
    decreases |events|
  {
    if events == [] then (None, attempts)
    else
      var refusal := sink(attempts, events[0]);
      if accountable && refusal.Some? then (refusal, attempts + [events[0]])
      else Filing(events[1..], accountable, sink, attempts + [events[0]])
  }

  method File(events: seq<Event>, accountable: bool, log: AuditLog) returns (refusal: Option<Thrown>)
    modifies log
    ensures (refusal, log.attempts) == Filing(events, accountable, log.sink, old(log.attempts))
  {
    var i := 0;
    while i < |events|
      invariant 0 <= i <= |events|
      invariant Filing(events[i..], accountable, log.sink, log.attempts) ==
                Filing(events, accountable, log.sink, old(log.attempts))
    {
      var filed := log.Audit(events[i]);
      if accountable && filed.Some? {
        return filed;
      }
      i := i + 1;
    }
    return None;
  }

  function Connected(asked: Asked, sink: Sink, attempts: seq<Event>): Served {
    if !asked.known then Served(Throws(NotFoundError(asked.missing)), attempts)
    else
      var crossed := FarEnd(asked.work);
      var (refusal, after) :=
        Filing(crossed.audit, asked.kind != Some(HttpCall) && crossed.outcome.Yes?, sink, attempts);
      Served(
        if refusal.Some? then Throws(refusal.value)
        else
          match crossed.outcome
          case Yes(result) => Answers(result)
          case No(error) => Throws(ToDomainError(error)),
        after)
  }

  method ServeOverConnector(asked: Asked, log: AuditLog) returns (reply: Reply)
    modifies log
    ensures Served(reply, log.attempts) == Connected(asked, log.sink, old(log.attempts))
  {
    if !asked.known {
      return Throws(NotFoundError(asked.missing));
    }
    var crossed := Serve(asked.work);
    var refusal := File(crossed.audit, asked.kind != Some(HttpCall) && crossed.outcome.Yes?, log);
    if refusal.Some? {
      return Throws(refusal.value);
    }
    match crossed.outcome
    case Yes(result) => return Answers(result);
    case No(error) => return Throws(ToDomainError(error));
  }

  // ------------------------------------------------------------- one and both

  /** What crosses: the work's one event, if it was named. */
  lemma OneCrosses(work: Work)
    ensures work.Does? ==> FarEnd(work) == Crossed(Yes(work.result), [SuccessOf(work.subject)])
    ensures work.Meets? ==>
      FarEnd(work) == Crossed(No(FrameErrorOf(work.failure)), [FailureOf(work.subject, work.failure)])
  {
    hide FrameErrorOf, RecordedAs;
    if work.Does? {
      assert [] + [SuccessOf(work.subject)] == [SuccessOf(work.subject)];
    } else if work.Meets? {
      assert [] + [FailureOf(work.subject, work.failure)] == [FailureOf(work.subject, work.failure)];
    }
  }

  /** What a browser sees of a reply. */
  datatype Seen = Result(result: Dto) | Error(envelope: Envelope)

  function SeenOf(reply: Reply): Seen {
    match reply
    case Answers(result) => Result(result)
    case Throws(thrown) => Error(EnvelopeOf(thrown))
  }

  lemma OneFiled(event: Event, accountable: bool, sink: Sink, attempts: seq<Event>)
    ensures Filing([event], accountable, sink, attempts) ==
            (if accountable then sink(attempts, event) else None, attempts + [event])
  {
    assert [event][1..] == [];
  }

  /** What the engine threw is what the caller hears, unless a newer build threw
      it and this one cannot say its name. */
  ghost predicate Nameable(work: Work) {
    work.Fails? || work.Meets? ==> !work.failure.NewerError?
  }

  /** The connector rung is the local rung: for every request, every thing the
      engine may do and every way the log may refuse, a caller sees the same
      answer or the same error, and the log is handed the same events in the
      same order. A newer build's error is the one exception, and is always one. */
  lemma TheRungsAreOne(asked: Asked, sink: Sink, attempts: seq<Event>)
    requires asked.Agreed()
    requires asked.work.Fails? || asked.work.Meets? ==> asked.work.failure.WellFormed()
    ensures Connected(asked, sink, attempts).attempts == Local(asked, sink, attempts).attempts
    ensures SeenOf(Connected(asked, sink, attempts).reply) == SeenOf(Local(asked, sink, attempts).reply)
            <==> !asked.known || Nameable(asked.work)
  {
    hide EnvelopeOf, ToDomainError, FrameErrorOf, RecordedAs;
    var work := asked.work;
    OneCrosses(work);
    if asked.known {
      match work {
        case Fails(failure) =>
          ToldTheSameUnlessNewer(failure);
        case Reads(_) =>
        case Does(kind, subject, _) =>
          OneFiled(SuccessOf(subject), kind != HttpCall, sink, attempts);
        case Meets(_, subject, failure) =>
          OneFiled(FailureOf(subject, failure), false, sink, attempts);
          ToldTheSameUnlessNewer(failure);
      }
    }
  }

  // -------------------------------------------------------------- accounting

  /** Every named write or action is put to the log exactly once, on either rung,
      and one that is told to have succeeded has been taken by it, unless it was
      a call whose effect is not ours to undo. */
  lemma NamedWorkIsFiledOnce(asked: Asked, sink: Sink, attempts: seq<Event>)
    requires asked.Agreed() && asked.known && (asked.work.Does? || asked.work.Meets?)
    ensures var event := if asked.work.Does? then SuccessOf(asked.work.subject)
                         else FailureOf(asked.work.subject, asked.work.failure);
      && Local(asked, sink, attempts).attempts == attempts + [event]
      && Connected(asked, sink, attempts).attempts == attempts + [event]
      && (event.outcome == Accepted <==> asked.work.Does?)
      && (Local(asked, sink, attempts).reply.Answers? ==>
           asked.work.Does? && (asked.work.kind != HttpCall ==> sink(attempts, event) == None))
      && (Connected(asked, sink, attempts).reply.Answers? ==>
           asked.work.Does? && (asked.work.kind != HttpCall ==> sink(attempts, event) == None))
  {
    hide EnvelopeOf, ToDomainError, FrameErrorOf;
    OneCrosses(asked.work);
    var event := if asked.work.Does? then SuccessOf(asked.work.subject)
                 else FailureOf(asked.work.subject, asked.work.failure);
    OneFiled(event, asked.work.kind != HttpCall && asked.work.Does?, sink, attempts);
  }
}
