/** What a call comes to. The engine answers, or throws one of a handful of
    things; the wording of a refusal is not part of this model. */
module Outcomes {

  datatype Option<+T> = None | Some(value: T)

  /** `Bug` is a bare `Error`: nothing a caller did could mend it. `Unservable`
      is the refusal of a definition that validation should have stopped.
      Every other constructor is an answer meant for whoever asked. */
  datatype Failure =
    | Bug
    | Unservable
    | InvalidQuery
    | NotFound
    | WriteRefused
    | ValidationFailed(fields: seq<string>)

  datatype Outcome<+T> = Ok(value: T) | Err(failure: Failure) {
    predicate IsFailure() {
      Err?
    }

    function PropagateFailure<U>(): Outcome<U>
      requires Err?
    {
      Err(failure)
    }

    function Extract(): T
      requires Ok?
    {
      value
    }

    /** The engine did its part: it answered, or told the caller something the
        caller can act on. */
    predicate Served() {
      Ok? || (failure != Bug && failure != Unservable)
    }
  }
}
