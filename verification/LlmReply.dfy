/** What a model call hands back in internal/agent/llm.go: an error, or a stream of responses. */
module LlmReply {
  import opened Wrappers

  datatype Error =
    | Message(text: string)
    | Exhausted(retries: int, cause: Error)
    | StreamClosed
    | Cancelled
    | CircuitOpen

  /** A response carries its content, or an error message inside the stream. */
  datatype Response = Response(content: string, error: Option<string>)

  /** The channel is modelled by everything it will deliver; [] is a channel closed at once. */
  datatype Reply = Failed(err: Error) | Stream(items: seq<Response>)

  /** Neither an error return, nor a closed channel, nor an error as first response. */
  predicate Succeeds(r: Reply) {
    r.Stream? && r.items != [] && r.items[0].error.None?
  }
}
