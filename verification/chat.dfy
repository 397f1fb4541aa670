/** The shape of the data exchanged with the inference service. The service
    itself is not modelled: callers receive its answer as an `Outcome`. */
module Chat {
  import opened Wrappers
  import opened Config

  /** A role-tagged message, `{"role": ..., "content": ...}`. In the shared
      history `role` is "system" or a participant's display name; in a request
      it is one of "system", "user" and "assistant". */
  datatype Message = Message(role: string, content: string)

  /** One call `client.chat(model=..., messages=...)`. The model identifier is
      whatever value the configuration holds. */
  datatype Request = Request(model: ConfigValue, messages: seq<Message>)

  /** What a call can come back with: it raises (the exception's text), the
      response has no `message` field, or it has one whose `content` field is
      present or absent. */
  datatype Outcome =
    | Exception(error: string)
    | NoMessage
    | WithMessage(content: Option<string>)

  predicate IsProtocolRole(role: string) {
    role == "system" || role == "user" || role == "assistant"
  }
}
