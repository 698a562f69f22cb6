/** Provider-neutral events passed from a model client through the gateway. */
module LlmTypes {
  import opened Text
  import opened UsageWindow

  datatype ErrorData = ErrorData(code: string, message: string, retryable: bool)

  datatype LlmEvent =
    | MessageStart(model: string)
    | SelectedConfig(config: ConfigId, pooled: bool)  // the message_start the gateway itself sends
    | ReasoningDelta(field: string, reasoning: string)
    | TextDelta(delta: string)
    | ToolCallStart(id: string, name: string)
    | ToolCallDelta(id: string, arguments: string)
    | ToolCallDone(id: string, name: string, rawArguments: string)
    | MessageStop(stopReason: string)
    | Usage(inputTokens: int, outputTokens: int)
    | Error(data: ErrorData)
  {
    predicate IsStart() { MessageStart? || SelectedConfig? }

    /** An error or a stop: the gateway sends nothing after it. */
    predicate Terminal() { Error? || MessageStop? }
  }
}
