/** What crosses between Cloud and a connector, and how long each end waits
    (packages/contracts/src/connector/frames.ts). */
module Frames {

  /** A request by name. What it asks for is of no concern to a channel. */
  type Descriptor = nat

  /** An engine's answer or refusal, kept beside the descriptor it was made for:
      the frame itself carries no such note, so nothing may look at it. */
  datatype Outcome = Outcome(of: Descriptor, says: nat)

  datatype Question = OpenSession | PullDefinition

  /** Cloud's answer to a question, kept beside the question in the same way. */
  datatype Answer = Answer(to: Question, says: nat)

  datatype CloudFrame =
    | Execute(id: nat, definitionVersion: nat, descriptor: Descriptor)
    | AnswerTo(id: nat, answer: Answer)
    | Notify(version: nat)
    | CloudHeartbeat

  datatype ConnectorFrame =
    | ResultOf(id: nat, outcome: Outcome)
    | Ask(id: nat, question: Question)
    | Heartbeat(definitionVersion: nat)

  /** Text from another build: a frame, or something no frame is. */
  datatype Payload = Known(frame: ConnectorFrame) | Unknown

  const HEARTBEAT_INTERVAL_MS := 15_000
  const HEARTBEAT_TIMEOUT_MS := 45_000
}
