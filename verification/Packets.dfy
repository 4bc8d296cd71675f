/** The packets of one assistant turn (app/agents/packets.py) and the timeline
    events they fold into (app/schemas/sessions.py). */
module Packets {
  import opened Prelude

  /** A JSON-ready value that the pipeline only carries. */
  type Json = string

  datatype Kind = TextKind | ToolKind

  datatype Status = StatusOk | StatusError

  datatype Packet =
    | Start(assistantId: Id, sessionId: Id)
    | TextDelta(step: Option<nat>, delta: string)
    | ToolStart(step: Option<nat>, toolCallId: string, tool: string)
    | ToolCall(step: Option<nat>, toolCallId: string, tool: string, arguments: Json)
    | ToolEnd(step: Option<nat>, toolCallId: string, tool: string,
              status: Status, result: Option<Json>, error: Option<string>)
    | ErrorPacket(code: string, message: string)
    | Finish(reason: string, assistantId: Id)
  {
    predicate IsTool() { ToolStart? || ToolCall? || ToolEnd? }

    predicate IsContent() { TextDelta? || IsTool() }

    function WithStep(s: nat): Packet {
      if IsContent() then this.(step := Some(s)) else this
    }
  }

  datatype Event =
    | TextEvent(step: nat, content: string)
    | ToolEvent(step: nat, toolCallId: string, tool: string, arguments: Option<Json>,
                status: Option<Status>, result: Option<Json>, error: Option<string>)
  {
    /** No outcome is recorded for a call that has not ended. */
    predicate Settled() {
      ToolEvent? && status.None? ==> result.None? && error.None?
    }
  }

  /** The names in `TOOL_CLASS_BY_NAME`. */
  const TOOL_NAMES: set<string> := {"search_memories", "manage_memory"}

  /** The `type` literal of a packet. */
  function WireType(p: Packet): string {
    match p
    case Start(_, _) => "start"
    case TextDelta(_, _) => "text_delta"
    case ToolStart(_, _, tool) => tool + "_start"
    case ToolCall(_, _, tool, _) => tool + "_call"
    case ToolEnd(_, _, tool, _, _, _) => tool + "_end"
    case ErrorPacket(_, _) => "error"
    case Finish(_, _) => "finish"
  }
}
