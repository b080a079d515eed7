/** A message of a session conversation (a value record). */
module Messages {
  import opened Common
  import opened JsonValues

  /** Milliseconds since the epoch; the clock itself is an input. */
  type Instant = int

  const ROLE_SYSTEM: string := "system"
  const ROLE_USER: string := "user"
  const ROLE_ASSISTANT: string := "assistant"
  const ROLE_TOOL_RESULT: string := "tool_result"
  const ROLE_ASSISTANT_TOOL_USE: string := "assistant_tool_use"

  /** Role and content are always present in the record; content, the
      timestamp, the tool-use id and the stored content blocks may be null. */
  datatype Message = Message(
    role: string,
    content: Option<string>,
    timestamp: Option<Instant>,
    toolUseId: Option<string>,
    toolError: bool,
    contentBlocks: Option<Json>)

  /** The three-argument constructor: keeps the given (possibly null)
      timestamp; a plain message has no tool fields. */
  function MessageAt(role: string, content: Option<string>, timestamp: Option<Instant>): (m: Message)
    ensures m.role == role && m.content == content && m.timestamp == timestamp
    ensures m.toolUseId.None? && !m.toolError && m.contentBlocks.None?
  {
    Message(role, content, timestamp, None, false, None)
  }

  /** The two-argument constructor: stamps the current time `now`. */
  function NewMessage(role: string, content: Option<string>, now: Instant): (m: Message)
    ensures m == MessageAt(role, content, Some(now))
  {
    MessageAt(role, content, Some(now))
  }

  /** Message.toolResult: role "tool_result" carrying the invocation id,
      the output and the error flag. */
  function ToolResultMessage(toolUseId: Option<string>, content: string, isError: bool, now: Instant): (m: Message)
    ensures m.role == ROLE_TOOL_RESULT && m.toolUseId == toolUseId
    ensures m.content == Some(content) && m.toolError == isError
    ensures m.timestamp == Some(now) && m.contentBlocks.None?
  {
    NewMessage(ROLE_TOOL_RESULT, Some(content), now).(toolUseId := toolUseId, toolError := isError)
  }

  /** Message.assistantToolUse: role "assistant_tool_use", null content,
      and the serialised content blocks kept for replay. */
  function AssistantToolUseMessage(contentBlocks: Json, now: Instant): (m: Message)
    ensures m.role == ROLE_ASSISTANT_TOOL_USE && m.content.None?
    ensures m.contentBlocks == Some(contentBlocks)
    ensures m.timestamp == Some(now) && m.toolUseId.None? && !m.toolError
  {
    NewMessage(ROLE_ASSISTANT_TOOL_USE, None, now).(contentBlocks := Some(contentBlocks))
  }
}
