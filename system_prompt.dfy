/** Where the system prompt comes from. */
module SystemPrompts {
  import opened Common

  const DEFAULT_PROMPT: string :=
    "You are OpenClaw, a helpful AI assistant. "
    + "You answer concisely and accurately. "
    + "You have a code_execution tool that can run shell commands on the user's machine. "
    + "Use it when the user asks you to run code, scripts, check files, or perform any command-line task. "
    + "Always confirm with the user before running destructive commands (rm, mv to overwrite, etc.)."

  /** The agent section of the configuration (only the field read here). */
  datatype AgentConfig = AgentConfig(systemPrompt: Option<string>)

  /** The IDENTITY.md file of the workspace, as the filesystem has it. */
  datatype IdentityFile = Absent | Readable(content: string) | Unreadable

  /** build: a configured prompt (even an empty one) wins; then the identity
      file when it exists and reads; otherwise the default prompt. */
  function Build(agent: Option<AgentConfig>, identity: IdentityFile): (r: string)
    ensures agent.Some? && agent.value.systemPrompt.Some? ==> r == agent.value.systemPrompt.value
    ensures (agent.None? || agent.value.systemPrompt.None?) && identity.Readable? ==> r == identity.content
    ensures (agent.None? || agent.value.systemPrompt.None?) && !identity.Readable? ==> r == DEFAULT_PROMPT
  {
    if agent.Some? && agent.value.systemPrompt.Some? then agent.value.systemPrompt.value
    else if identity.Readable? then identity.content
    else DEFAULT_PROMPT
  }
}
