/** The message vocabulary of the agent: what the provider answers, the tool
    calls it asks for, and the history the graph accumulates. */
module Messages {

  datatype Option<T> = None | Some(value: T)

  /** One requested tool invocation: its id, the tool's name and the
      arguments, each given as text. */
  datatype ToolCall = ToolCall(id: string, name: string, args: map<string, string>)

  datatype Message =
    | SystemMessage(content: string)
    | HumanMessage(content: string)
    | AiMessage(content: string, toolCalls: seq<ToolCall>)
    | ToolMessage(content: string, toolCallId: string, name: string)

  /** What one call of the model returns: an assistant reply, possibly asking
      for tools, or the failure the client library raised. */
  datatype ProviderReply = Reply(content: string, toolCalls: seq<ToolCall>) | ProviderError(reason: string)

  /** `outputs` answers `calls` one for one, in order, each result carrying the
      id and the name of its call. */
  predicate Answers(outputs: seq<Message>, calls: seq<ToolCall>)
  {
    |outputs| == |calls| &&
    forall k :: 0 <= k < |calls| ==>
      outputs[k].ToolMessage? && outputs[k].toolCallId == calls[k].id && outputs[k].name == calls[k].name
  }
}
