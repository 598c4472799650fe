/** A refusal on its way over the hop and back, and what a browser is told of it
    (apps/api/src/runtime/frame-errors.ts). */
module FrameErrors {
  import opened Outcomes

  type Detail = string

  datatype ActionCode = Rejected | Unreachable | TookTooLong | Failed {
    function Text(): string {
      match this
      case Rejected => "action_rejected"
      case Unreachable => "action_unreachable"
      case TookTooLong => "action_timeout"
      case Failed => "action_failed"
    }
  }

  /** What the engine throws: its own classes, the one of a newer build, whose
      code no older one knows, or anything else at all. */
  datatype Thrown =
    | NotFoundError(message: string)
    | ConflictError(message: string)
    | InvalidQueryError(message: string)
    | WriteRefusedError(message: string)
    | QueryTimeoutError(message: string)
    | UnservableResourceError(message: string)
    | ValidationFailedError(message: string, details: seq<Detail>)
    | ActionFailedError(action: ActionCode, message: string)
    | NewerError(newer: string, message: string)
    | Foreign(text: string)
  {
    predicate WellFormed() {
      NewerError? ==> newer !in KNOWN_CODES && newer != INTERNAL
    }

    /** `code`, for what is a `DomainError`. */
    function Code(): string
      requires !Foreign?
    {
      match this
      case NotFoundError(_) => "not_found"
      case ConflictError(_) => "conflict"
      case InvalidQueryError(_) => "invalid_query"
      case WriteRefusedError(_) => "write_refused"
      case QueryTimeoutError(_) => "query_timeout"
      case UnservableResourceError(_) => "unservable_resource"
      case ValidationFailedError(_, _) => "validation_failed"
      case ActionFailedError(action, _) => action.Text()
      case NewerError(newer, _) => newer
    }
  }

  const INTERNAL := "internal_error"

  const KNOWN_CODES := [
    "not_found", "conflict", "invalid_query", "write_refused", "query_timeout", "unservable_resource",
    "validation_failed", "action_rejected", "action_unreachable", "action_timeout", "action_failed"]

  datatype FrameError = FrameError(code: string, message: string, details: Option<seq<Detail>>)

  /** dispatch.ts:116-123: nothing of a foreign failure crosses. */
  function FrameErrorOf(t: Thrown): FrameError {
    match t
    case Foreign(_) => FrameError(INTERNAL, "The connector could not serve this request.", None)
    case ValidationFailedError(message, details) => FrameError(t.Code(), message, Some(details))
    case _ => FrameError(t.Code(), t.message, None)
  }

  function ActionFailure(code: string): Option<ActionCode> {
    if code == "action_rejected" then Some(Rejected)
    else if code == "action_unreachable" then Some(Unreachable)
    else if code == "action_timeout" then Some(TookTooLong)
    else if code == "action_failed" then Some(Failed)
    else None
  }

  /** frame-errors.ts:46-56 */
  function ToDomainError(e: FrameError): Thrown {
    if e.code == "validation_failed" then
      ValidationFailedError(e.message, if e.details.Some? then e.details.value else [])
    else if ActionFailure(e.code).Some? then ActionFailedError(ActionFailure(e.code).value, e.message)
    else if e.code == "not_found" then NotFoundError(e.message)
    else if e.code == "conflict" then ConflictError(e.message)
    else if e.code == "invalid_query" then InvalidQueryError(e.message)
    else if e.code == "write_refused" then WriteRefusedError(e.message)
    else if e.code == "query_timeout" then QueryTimeoutError(e.message)
    else if e.code == "unservable_resource" then UnservableResourceError(e.message)
    else Foreign("the connector answered with `" + e.code + "`")
  }

  /** What a caller of the API is told: a status, and an error envelope. */
  datatype Envelope = Envelope(status: nat, code: string, message: string, details: Option<seq<Detail>>)

  function StatusOf(t: Thrown): nat {
    match t
    case NotFoundError(_) => 404
    case ConflictError(_) => 409
    case InvalidQueryError(_) => 400
    case WriteRefusedError(_) => 403
    case QueryTimeoutError(_) => 504
    case ValidationFailedError(_, _) => 422
    case ActionFailedError(action, _) => if action == TookTooLong then 504 else 502
    case _ => 500
  }

  /** domain-exception.filter.ts:41-87 */
  function EnvelopeOf(t: Thrown): Envelope {
    match t
    case Foreign(_) => Envelope(500, INTERNAL, "Internal server error", None)
    case ValidationFailedError(message, details) => Envelope(StatusOf(t), t.Code(), message, Some(details))
    case _ => Envelope(StatusOf(t), t.Code(), t.message, None)
  }

  /** Of a failure that is nobody's word, nothing is told: not over the hop, and not
      to a caller. */
  lemma NothingForeignIsTold(a: string, b: string)
    ensures FrameErrorOf(Foreign(a)) == FrameErrorOf(Foreign(b))
    ensures EnvelopeOf(Foreign(a)) == EnvelopeOf(Foreign(b))
  {
  }

  /** Every error the engine itself can raise comes back as what it was. */
  lemma RebuiltIsTheSame(t: Thrown)
    requires !t.NewerError? && !t.Foreign?
    ensures ToDomainError(FrameErrorOf(t)) == t
  {
  }

  /** A caller is told the same over the hop as without it, exactly when the
      error is not one of a newer build's. */
  lemma ToldTheSameUnlessNewer(t: Thrown)
    requires t.WellFormed()
    ensures EnvelopeOf(ToDomainError(FrameErrorOf(t))) == EnvelopeOf(t) <==> !t.NewerError?
  {
    if t.NewerError? {
      var codes := KNOWN_CODES;
      assert t.newer != codes[0] && t.newer != codes[1] && t.newer != codes[2] && t.newer != codes[3] && t.newer != codes[4];
      assert t.newer != codes[5] && t.newer != codes[6] && t.newer != codes[7] && t.newer != codes[8];
      assert t.newer != codes[9] && t.newer != codes[10];
      assert ToDomainError(FrameErrorOf(t)).Foreign?;
    }
  }
}
