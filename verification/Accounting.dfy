/** One write, through both stores: the statement on a client of the customer's
    pool, and the event in the log (packages/engine/src/write/record-writer.ts:118-212,
    packages/engine/src/actions/action-runner.ts:94-136). */
module Accounting {
  import opened Outcomes
  import opened FrameErrors
  import opened Rungs
  import opened Bounded

  /** What the statement came to, once it had answered or failed. `decodes` is
      whether a row came back that could be read. */
  function WorkOf(ok: bool, decodes: bool, kind: Kind, subject: nat, result: Dto, failure: Thrown): Work {
    if !ok || !decodes then Meets(kind, subject, failure) else Does(kind, subject, result)
  }

  /** A form write or a `dbUpdate`. The log is asked once, whatever happened: to
      take a success when all three commands were done and a row could be read,
      and otherwise a failure. The success is told exactly when the log took it,
      and what the log throws is told instead; a failure is told as it was. The
      statement committed wherever a success was put to the log, and the client is
      given back once, on every path. */
  method Account(
    client: PoolClient, log: AuditLog, decodes: bool, kind: Kind, subject: nat, result: Dto, failure: Thrown)
    returns (reply: Reply)
    requires client.state == CHECKED_OUT && kind != HttpCall
    modifies client, log
    ensures |client.state.releases| == 1
    ensures var done := FirstFailed(client.fate, old(client.commands)) == 3 && decodes;
            var event := if done then SuccessOf(subject) else FailureOf(subject, failure);
            var refusal := log.sink(old(log.attempts), event);
      && log.attempts == old(log.attempts) + [event]
      && (event.outcome == Accepted <==> done)
      && (done ==> client.state.commits == 1 && client.state.releases == [Clean])
      && reply == (if !done then Throws(failure)
                   else if refusal.Some? then Throws(refusal.value)
                   else Answers(result))
  {
    var ok := RunBounded(client);
    reply := Perform(WorkOf(ok, decodes, kind, subject, result, failure), log);
  }
}
