/** Messages and tools of an agent transcript, as far as the loop looks into them. */
module Transcript {

  datatype Option<T> = None | Some(value: T)

  /** `definition` is what a declaration tells the model; `internals` is the rest, which it never sees. */
  datatype Tool = Tool(name: string, definition: string, internals: string)

  datatype ToolCall = ToolCall(id: string, name: string, arguments: string)

  datatype StopReason = Stop | Length | ToolUse | Error | Aborted

  datatype Result = Result(content: string, isError: bool, terminate: bool)

  datatype Message =
    | System(content: string, toolsAdded: seq<Tool>, toolsRemoved: seq<string>)
    | User(content: string)
    | Assistant(content: string, calls: seq<ToolCall>, stop: StopReason, errorMessage: string)
    | ToolResult(callId: string, toolName: string, result: Result)

  /** What a request sees: the messages, and the tools the runtime can execute. */
  datatype Context = Context(messages: seq<Message>, tools: seq<Tool>)
}
