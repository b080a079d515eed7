# openclaw-java agent gateway: a Dafny model of its core

openclaw-java is a gateway that lets users talk to an LLM agent over a
WebSocket JSON-RPC endpoint or from Slack. Each conversation is a session:
an ordered list of messages kept in memory and appended, one JSON line per
message, to a `<sessionId>.jsonl` log. A session idle for 24 hours is
evicted, and the logs are recovered when the gateway starts. The agent loop
sends the system prompt and the whole history to the Anthropic Messages
API. It runs the tools the model asks for and feeds their results back,
for at most ten model calls. The tools are a shell command runner, file
read and write confined to a workspace, and a web page fetcher guarded
against private addresses.

This project models that core in Dafny 4.11, one module per Java class:

| Dafny file | Java class |
|---|---|
| `message.dfy` | `session/Message.java` |
| `session.dfy` | `session/Session.java` |
| `session_store.dfy` | `session/SessionStore.java` |
| `llm_response.dfy` | `agent/LlmResponse.java` |
| `system_prompt.dfy` | `agent/SystemPromptBuilder.java` |
| `anthropic_provider.dfy` | `agent/AnthropicProvider.java` |
| `agent_executor.dfy` | `agent/AgentExecutor.java` |
| `tool_result.dfy` | `tool/ToolResult.java`, `tool/Tool.java` |
| `code_execution.dfy` | `tool/CodeExecutionTool.java` |
| `file_read_tool.dfy` | `tool/FileReadTool.java` |
| `file_write_tool.dfy` | `tool/FileWriteTool.java` |
| `workspace.dfy` | `resolvePath`, which the two file tools share, and the file system |
| `web_search.dfy` | `tool/WebSearchTool.java` |
| `rpc_router.dfy` | `gateway/RpcRouter.java` |
| `gateway_server.dfy` | `gateway/GatewayServer.java` |
| `utf8.dfy` | the UTF-8 encoding `constantTimeEquals` compares |
| `slack_channel.dfy` | `channel/slack/SlackChannel.java` |
| `common.dfy`, `json.dfy` | string helpers, and JSON values as Jackson's tree |

The model follows the Java structure:
- Objects whose fields the code updates are classes: `Session`,
  `SessionStore`, `AgentExecutor`, `RpcRouter`, `GatewayServer`,
  `SlackChannel`, and the workspace `FileSystem`. Their methods carry
  `modifies` frames.
- Value records are datatypes: `Message`, `LlmResponse`, `ToolResult` and
  the JSON tree.
- Loops in the source are methods with loop invariants, proved against
  specification functions:
  - the agent loop and its inner tool loop;
  - the retry loop;
  - the message translation;
  - log recovery;
  - the eviction loop;
  - the output reader;
  - the directory listing.

Several behaviours are modelled exactly as the code has them, and lemmas
state them:
- A non-retryable HTTP status (a 400, say) is retried all the same. The
  IOException raised for it is caught by the handler for I/O errors
  (`AnthropicProviders.NonRetryableStatusIsRetried`).
- `RpcRouter.route` never returns null for an unknown method: it returns a
  "Method not found" object. The gateway therefore sends error -32601 only
  when a registered handler returns null
  (`Gateway.UnknownMethodAnsweredAsResult`).
- The messages the tool loop adds go to the in-memory session but not to
  its log. Only the user message and the final reply are persisted
  (`AgentExecutors.AgentExecutor.Execute`).
- HTML entities are decoded with `&amp;` first, so an escaped entity is
  decoded twice (`WebSearch.EscapedEntityDecodedTwice`).
- Mention stripping does not rescan the text it joins
  (`SlackChannels.NoRescan`).

`GatewayServer.java` has a stray closing brace at line 72, which as
written would not compile. The model reads `extractToken` without it, so a
handshake with no token reaches the `return null` at line 73.

External effects become parameters or oracles:
- the clock (an `Instant` per operation);
- random UUIDs (a fresh id per call);
- the language model (`LlmProvider`);
- each HTTP attempt (`send`);
- URI parsing, DNS resolution and the page fetch (`parse`, `resolve`,
  `fetch`);
- the shell run (`shell`);
- the regex patterns (`find`);
- exception texts the JDK writes (`describe` and unspecified constants).

The file system is a map from paths to nodes. A log line is its text plus
what Jackson makes of it.

## Model

| member | source | states |
|---|---|---|
| Messages.MessageAt | src/main/java/ai/openclaw/session/Message.java:34-38 | the three-argument constructor keeps role, content and the given timestamp, with no tool fields |
| Messages.NewMessage | src/main/java/ai/openclaw/session/Message.java:28-32 | the two-argument constructor is the three-argument one stamped with the current time |
| Messages.ToolResultMessage | src/main/java/ai/openclaw/session/Message.java:41-46 | a tool result has role "tool_result" and carries the invocation id, the output and the error flag |
| Messages.AssistantToolUseMessage | src/main/java/ai/openclaw/session/Message.java:52-56 | an assistant_tool_use message has null content and keeps the serialised blocks for replay |
| Sessions.Session.constructor | src/main/java/ai/openclaw/session/Session.java:19-26 | a new session has the given id, channel and user, no messages, and both instants set to one clock reading |
| Sessions.Session.Recovered | src/main/java/ai/openclaw/session/SessionStore.java:66-73 | a session being recovered starts as channel "recovered", user "unknown", with no messages |
| Sessions.Session.AddMessage | src/main/java/ai/openclaw/session/Session.java:76-79 | the message goes at the end and the session becomes active now; identity, owner and creation time are kept |
| SessionStores.SessionIdOf | src/main/java/ai/openclaw/session/SessionStore.java:46-47 | the id recovered from a "*.jsonl" name is the one whose log file has that name |
| SessionStores.LogFileName | src/main/java/ai/openclaw/session/SessionStore.java:149 | reference definition: a session's log is named by its id and ".jsonl"; LogFileNameRoundTrip inverts it |
| SessionStores.LogFileNameRoundTrip | src/main/java/ai/openclaw/session/SessionStore.java:46-47 | a session's log name is matched by the "*.jsonl" scan and maps back to the same id |
| SessionStores.RecoverMessages | src/main/java/ai/openclaw/session/SessionStore.java:75-90 | the read loop's reference: never more messages than lines; RecoverMessagesFails and RecoverWrittenLog characterise it |
| SessionStores.RecoverMessagesFails | src/main/java/ai/openclaw/session/SessionStore.java:75-90 | a log fails to recover exactly when a non-blank line does not parse, and recovers to no message only when every line is blank |
| SessionStores.RecoverWrittenLog | src/main/java/ai/openclaw/session/SessionStore.java:75-85 | a log of written messages recovers to those messages, in order |
| SessionStores.AppendedLineRecovered | src/main/java/ai/openclaw/session/SessionStore.java:148-156 | a line appended by persistTurn comes back as exactly one more message at the end |
| SessionStores.LastTimestamp | src/main/java/ai/openclaw/session/SessionStore.java:81-83 | lastActiveAt becomes the timestamp of the last message that has one, else the load time |
| SessionStores.RecoveredState | src/main/java/ai/openclaw/session/SessionStore.java:66-97 | a recovered session was created at the first message's timestamp, or at load time when it has none, and was last active at the last timestamp any message carries, or at load time |
| SessionStores.ReadLines | src/main/java/ai/openclaw/session/SessionStore.java:75-86 | the read loop succeeds exactly when the log recovers, and then the session holds the recovered messages |
| SessionStores.RecoverSession | src/main/java/ai/openclaw/session/SessionStore.java:66-98 | the result is corrupt exactly when a line does not parse, null exactly when there is no message, and otherwise a fresh session in the recovered state |
| SessionStores.LoadedSessionsFromFiles | src/main/java/ai/openclaw/session/SessionStore.java:42-64 | every loaded session comes from the log file named after it |
| SessionStores.LoadedSessionsPerFile | src/main/java/ai/openclaw/session/SessionStore.java:45-57 | each "*.jsonl" file yields its session exactly when it recovers to a message, whatever the other files hold |
| SessionStores.Evicted | src/main/java/ai/openclaw/session/SessionStore.java:114-124 | reference definition: the sessions last active at or after now minus 24 hours, unchanged; EvictionComposes relates two evictions |
| SessionStores.EvictionComposes | src/main/java/ai/openclaw/session/SessionStore.java:114-124 | evicting twice at one instant drops nothing more, and a later eviction keeps a subset of an earlier one |
| SessionStores.SessionStore.constructor | src/main/java/ai/openclaw/session/SessionStore.java:31-40 | a new store holds the sessions recovered from the directory's logs |
| SessionStores.SessionStore.LoadExistingSessions | src/main/java/ai/openclaw/session/SessionStore.java:42-64 | the registry gains exactly the sessions the log files yield, in scan order, and no log is written |
| SessionStores.SessionStore.LoadFile | src/main/java/ai/openclaw/session/SessionStore.java:45-57 | one file registers its session if it recovers, and otherwise changes nothing |
| SessionStores.SessionStore.CreateSession | src/main/java/ai/openclaw/session/SessionStore.java:130-134 | a fresh empty session is registered under its id and getSession finds it |
| SessionStores.SessionStore.GetSession | src/main/java/ai/openclaw/session/SessionStore.java:136-138 | a session is returned exactly when the id is registered, and it is the registered one |
| SessionStores.SessionStore.AddToSession | src/main/java/ai/openclaw/session/SessionStore.java:143 | adding a message to a registered session changes only that session's entry of the registry |
| SessionStores.SessionStore.AppendMessage | src/main/java/ai/openclaw/session/SessionStore.java:140-146 | a registered session gets the message at its end and in its log; an unknown id changes nothing |
| SessionStores.SessionStore.PersistTurn | src/main/java/ai/openclaw/session/SessionStore.java:148-156 | the message is one more line at the end of the session's log |
| SessionStores.SessionStore.EvictExpiredSessions | src/main/java/ai/openclaw/session/SessionStore.java:114-128 | exactly the sessions idle for more than 24 hours are dropped, the rest are unchanged, and no log is touched |
| SessionStores.SessionStore.DropSessionsBefore | src/main/java/ai/openclaw/session/SessionStore.java:117-124 | the removal loop keeps a session exactly when it was last active at or after the cutoff |
| LlmResponses.TextBlock | src/main/java/ai/openclaw/agent/LlmResponse.java:76-78 | a text block carries its text and no tool fields |
| LlmResponses.ToolUseBlock | src/main/java/ai/openclaw/agent/LlmResponse.java:80-82 | a tool_use block carries id, name and input and no text |
| LlmResponses.HasToolUse | src/main/java/ai/openclaw/agent/LlmResponse.java:30-32 | reference definition: the stop reason alone decides tool use, whatever the blocks hold |
| LlmResponses.GetTextContent | src/main/java/ai/openclaw/agent/LlmResponse.java:35-45 | the texts of the text blocks with non-null text, in order, joined by newlines |
| LlmResponses.GetToolUseBlocks | src/main/java/ai/openclaw/agent/LlmResponse.java:48-56 | a block is returned exactly when it is a tool_use block of the response |
| LlmResponses.TextContentIsJoin | src/main/java/ai/openclaw/agent/LlmResponse.java:35-45 | getTextContent is the newline join of the text blocks' texts, with leading empty texts contributing nothing |
| LlmResponses.TextContentWithoutText | src/main/java/ai/openclaw/agent/LlmResponse.java:35-45 | with no text block carrying text, the text content is empty |
| LlmResponses.ToolUseBlocksMembers | src/main/java/ai/openclaw/agent/LlmResponse.java:48-56 | getToolUseBlocks returns exactly the tool_use blocks of the response |
| LlmResponses.ToolUseBlocksAppend | src/main/java/ai/openclaw/agent/LlmResponse.java:48-56 | the filter distributes over concatenation, so it keeps the blocks' order |
| SystemPrompts.Build | src/main/java/ai/openclaw/agent/SystemPromptBuilder.java:25-44 | a configured prompt wins, even an empty one; then a readable IDENTITY.md; otherwise the default prompt |
| AnthropicProviders.StripTrailingSlashes | src/main/java/ai/openclaw/agent/AnthropicProvider.java:36 | the base URL loses exactly its trailing slashes and is otherwise a prefix of the configured one |
| AnthropicProviders.NewProvider | src/main/java/ai/openclaw/agent/AnthropicProvider.java:32-47 | bedrock mode holds iff a non-empty base URL that does not name api.anthropic.com is configured |
| AnthropicProviders.ResolveUrl | src/main/java/ai/openclaw/agent/AnthropicProvider.java:49-54 | the endpoint is the public Messages URL, or in bedrock mode the model's invoke URL under the base URL |
| AnthropicProviders.TrailingSlashIrrelevant | src/main/java/ai/openclaw/agent/AnthropicProvider.java:36-38 | a trailing slash on the base URL changes neither the mode nor the endpoint |
| AnthropicProviders.RunLength | src/main/java/ai/openclaw/agent/AnthropicProvider.java:81-97 | counts the leading run of tool_result messages |
| AnthropicProviders.Wire | src/main/java/ai/openclaw/agent/AnthropicProvider.java:77-113 | the reference translation by runs ends with an open tool-result user message when the last message is a tool result |
| AnthropicProviders.WireShape | src/main/java/ai/openclaw/agent/AnthropicProvider.java:77-113 | no system or tool_result role reaches the wire as a plain message, and every grouped user message has at least one block |
| AnthropicProviders.WireSnoc | src/main/java/ai/openclaw/agent/AnthropicProvider.java:77-113 | the reference translation of one more message is one more step of the source's loop |
| AnthropicProviders.WireKeepsToolResults | src/main/java/ai/openclaw/agent/AnthropicProvider.java:81-97 | the grouped user messages hold exactly the tool_result messages, in order: none lost, duplicated or reordered |
| AnthropicProviders.LastSystemIndex | src/main/java/ai/openclaw/agent/AnthropicProvider.java:78-80 | finds the last system message, the one whose content becomes the system prompt |
| AnthropicProviders.LastSystemContent | src/main/java/ai/openclaw/agent/AnthropicProvider.java:73-80 | reference definition: the content of the last system message, null when there is none |
| AnthropicProviders.TranslateMessages | src/main/java/ai/openclaw/agent/AnthropicProvider.java:73-117 | the translation loop produces the reference translation and the last system message's content |
| AnthropicProviders.ToolResultBlockJson | src/main/java/ai/openclaw/agent/AnthropicProvider.java:91-97 | a tool_result block carries the id and the content, and has "is_error" exactly when the result is an error |
| AnthropicProviders.RequestBody | src/main/java/ai/openclaw/agent/AnthropicProvider.java:64-127 | the body has max_tokens from the configuration, anthropic_version iff bedrock and model iff not, system iff a system message exists, tools iff there are tools (each the JSON of its tool), and one message per wire message, each the JSON of that wire message |
| AnthropicProviders.WrapLong | src/main/java/ai/openclaw/agent/AnthropicProvider.java:191 | long arithmetic stays in range and is exact when no overflow happens |
| AnthropicProviders.DelaySchedule | src/main/java/ai/openclaw/agent/AnthropicProvider.java:157-191 | the k-th retry delay is min(initial * 2^k, 30000) |
| AnthropicProviders.Retry | src/main/java/ai/openclaw/agent/AnthropicProvider.java:155-194 | reference definition of the retry run; RetryBounds, RetryFailsOnlyAtLastAttempt and NonRetryableStatusIsRetried state its properties |
| AnthropicProviders.RetryBounds | src/main/java/ai/openclaw/agent/AnthropicProvider.java:155-194 | at most maxAttempts attempts are sent, none when it is not positive; the sleeps follow the schedule; a success returns the first successful body and every earlier attempt failed |
| AnthropicProviders.RetryFailsOnlyAtLastAttempt | src/main/java/ai/openclaw/agent/AnthropicProvider.java:167-183 | a run that fails has sent every attempt and raises the last attempt's error |
| AnthropicProviders.NonRetryableStatusIsRetried | src/main/java/ai/openclaw/agent/AnthropicProvider.java:167-183 | a non-retryable status before the last attempt is retried after the initial delay |
| AnthropicProviders.ExecuteWithRetry | src/main/java/ai/openclaw/agent/AnthropicProvider.java:155-195 | the retry loop's result, sleeps and attempt count are those of the reference run |
| AnthropicProviders.ParseBlocks | src/main/java/ai/openclaw/agent/AnthropicProvider.java:202-216 | a failure carries the missing-field message, and every block parsed is a well-shaped text or tool_use block |
| AnthropicProviders.ParseBlocksKeptItems | src/main/java/ai/openclaw/agent/AnthropicProvider.java:202-216 | parsing fails exactly when some item has no "type", or is a text item without "text", or a tool_use item without "id" or "name"; otherwise there is one block per text or tool_use item, in array order, built from that item, and items of other types are dropped |
| AnthropicProviders.ParseResponse | src/main/java/ai/openclaw/agent/AnthropicProvider.java:197-219 | stop_reason defaults to end_turn, and a missing or non-array content gives no blocks |
| AnthropicProviders.CompleteWithTools | src/main/java/ai/openclaw/agent/AnthropicProvider.java:63-153 | the request goes to the resolved URL with the translated messages, and the response is parsed from the retry loop's body |
| AnthropicProviders.Complete | src/main/java/ai/openclaw/agent/AnthropicProvider.java:57-60 | complete sends no tools and returns the text content of the response |
| AgentExecutors.Registry | src/main/java/ai/openclaw/agent/AgentExecutor.java:42-45 | a name is registered exactly when some tool has it |
| AgentExecutors.RegistryLastWins | src/main/java/ai/openclaw/agent/AgentExecutor.java:42-45 | a tool is found under its name unless a later tool has the same name |
| AgentExecutors.SerializedBlockAt | src/main/java/ai/openclaw/agent/AgentExecutor.java:134-149 | element i of the stored array is the object written for block i |
| AgentExecutors.SerializeContentBlocks | src/main/java/ai/openclaw/agent/AgentExecutor.java:134-149 | the serialisation loop writes one object per block, in order |
| AgentExecutors.SerializeThenParse | src/main/java/ai/openclaw/agent/AgentExecutor.java:134-149 | parsing the stored blocks gives back every block the response had, so replay is faithful |
| AgentExecutors.ReplyText | src/main/java/ai/openclaw/agent/AgentExecutor.java:61-66 | the reply is the loop's text, or "Error: " and the exception's message |
| AgentExecutors.RunTool | src/main/java/ai/openclaw/agent/AgentExecutor.java:109-117 | an unknown or null tool name gives an "Unknown tool" error result, and a known one runs that tool |
| AgentExecutors.RunTools | src/main/java/ai/openclaw/agent/AgentExecutor.java:108-124 | one result per block until a tool throws, and then the exception is that block's |
| AgentExecutors.RunToolsMessages | src/main/java/ai/openclaw/agent/AgentExecutor.java:119-123 | tool result k carries block k's id and its tool's output and error flag |
| AgentExecutors.AgentExecutor.constructor | src/main/java/ai/openclaw/agent/AgentExecutor.java:36-46 | the executor keeps its collaborators, registers the tools in list order and builds the system prompt once |
| AgentExecutors.AgentExecutor.Context | src/main/java/ai/openclaw/agent/AgentExecutor.java:80-82 | the context is a fresh system message followed by the whole history |
| AgentExecutors.AgentExecutor.Turn | src/main/java/ai/openclaw/agent/AgentExecutor.java:84-96 | an iteration that goes on adds messages, and with no tools it is one plain complete call |
| AgentExecutors.AgentExecutor.Respond | src/main/java/ai/openclaw/agent/AgentExecutor.java:93-124 | an iteration that goes on after the model's answer has added messages |
| AgentExecutors.AgentExecutor.Loop | src/main/java/ai/openclaw/agent/AgentExecutor.java:78-130 | reference definition of the loop from one iteration on; the max-iterations text once the bound is reached |
| AgentExecutors.AgentExecutor.Iteration | src/main/java/ai/openclaw/agent/AgentExecutor.java:78-127 | reference definition of one iteration followed by the rest of the loop |
| AgentExecutors.AgentExecutor.AgentLoop | src/main/java/ai/openclaw/agent/AgentExecutor.java:75-76 | reference definition of runAgentLoop: the missing agent configuration throws before any call |
| AgentExecutors.AgentExecutor.TurnAddsToolTurns | src/main/java/ai/openclaw/agent/AgentExecutor.java:101-124 | an iteration adds an assistant_tool_use message followed by tool results |
| AgentExecutors.AgentExecutor.LoopCallsBounded | src/main/java/ai/openclaw/agent/AgentExecutor.java:78-127 | the model is called at least once and at most MAX_TOOL_ITERATIONS times |
| AgentExecutors.AgentExecutor.LoopAddsToolTurns | src/main/java/ai/openclaw/agent/AgentExecutor.java:78-127 | the loop adds only (assistant_tool_use, tool_result*)* turns |
| AgentExecutors.AgentExecutor.LoopContextsFullHistory | src/main/java/ai/openclaw/agent/AgentExecutor.java:78-127 | the context of call k is exactly the system message, the starting history and every message the iterations before call k added; the iterations' messages together are all the loop added, and every iteration but the last adds some, so each context is longer than the one before |
| AgentExecutors.AgentExecutor.TurnRunsTools | src/main/java/ai/openclaw/agent/AgentExecutor.java:103-124 | when the model asks for tools and none throws, the iteration goes on |
| AgentExecutors.AgentExecutor.AlwaysToolUseReachesMax | src/main/java/ai/openclaw/agent/AgentExecutor.java:78-130 | a model that always asks for tools ends the loop with the maximum-iterations text after exactly MAX_TOOL_ITERATIONS calls |
| AgentExecutors.AgentExecutor.NoToolsSingleCall | src/main/java/ai/openclaw/agent/AgentExecutor.java:86-91 | with no tools the loop makes one plain complete call and returns its text |
| AgentExecutors.AgentExecutor.RunAgentLoop | src/main/java/ai/openclaw/agent/AgentExecutor.java:75-131 | the loop on a live session returns the reference result and appends exactly the reference messages |
| AgentExecutors.AgentExecutor.Advance | src/main/java/ai/openclaw/agent/AgentExecutor.java:78-127 | one iteration either reaches the loop's outcome or leaves the rest of the loop to resume |
| AgentExecutors.AgentExecutor.Iterate | src/main/java/ai/openclaw/agent/AgentExecutor.java:78-127 | one pass of the body ends the loop exactly when the reference iteration stops, and appends its messages |
| AgentExecutors.AgentExecutor.RecordToolUse | src/main/java/ai/openclaw/agent/AgentExecutor.java:103-105 | the response's blocks are stored as an assistant_tool_use message before its tools run |
| AgentExecutors.AgentExecutor.RunToolBlocks | src/main/java/ai/openclaw/agent/AgentExecutor.java:108-124 | the inner loop appends the reference tool results and stops at the first exception |
| AgentExecutors.AgentExecutor.RunToolsPrefixFailure | src/main/java/ai/openclaw/agent/AgentExecutor.java:108-124 | once a tool throws, the later blocks are not run |
| AgentExecutors.AgentExecutor.Execute | src/main/java/ai/openclaw/agent/AgentExecutor.java:48-73 | an unknown session throws and changes nothing; otherwise the session gets the user message, the loop's messages and the reply, and its log gets only the user message and the reply |
| AgentExecutors.AgentExecutor.ExecuteOnSession | src/main/java/ai/openclaw/agent/AgentExecutor.java:55-72 | on a found session: the user message, the loop, then the reply, in that order |
| AgentExecutors.AgentExecutor.UserTurn | src/main/java/ai/openclaw/agent/AgentExecutor.java:55-62 | the user message is stored and logged, then the loop runs on the session |
| AgentExecutors.AgentExecutor.RunOnStoredSession | src/main/java/ai/openclaw/agent/AgentExecutor.java:62 | the loop on a registered session changes only that session's entry |
| ToolResults.Success | src/main/java/ai/openclaw/tool/ToolResult.java:17-19 | a success is not an error and has exit code 0 |
| ToolResults.Error | src/main/java/ai/openclaw/tool/ToolResult.java:21-23 | an error has exit code 1 |
| CodeExecution.FirstMatch | src/main/java/ai/openclaw/tool/CodeExecutionTool.java:204-211 | the first pattern in list order that matches, and none exactly when none matches |
| CodeExecution.CheckBlocked | src/main/java/ai/openclaw/tool/CodeExecutionTool.java:204-211 | a command is blocked exactly when some blocked pattern matches, and the reason names the first such pattern |
| CodeExecution.CheckWarned | src/main/java/ai/openclaw/tool/CodeExecutionTool.java:216-223 | a warning is logged exactly when some risky pattern matches |
| CodeExecution.ReadOutput | src/main/java/ai/openclaw/tool/CodeExecutionTool.java:148-159 | the reader thread's loop builds the reference buffer |
| CodeExecution.AccumulatedKeepsLeadingLines | src/main/java/ai/openclaw/tool/CodeExecutionTool.java:150-155 | the buffer is a prefix of all the output, and is all of it while below the limit |
| CodeExecution.AccumulatedBounded | src/main/java/ai/openclaw/tool/CodeExecutionTool.java:150-155 | the buffer overshoots 8192 chars by at most one line and its newline |
| CodeExecution.TruncateOutput | src/main/java/ai/openclaw/tool/CodeExecutionTool.java:186-189 | a longer output is cut to its first 8192 chars plus the note |
| CodeExecution.ShapeResult | src/main/java/ai/openclaw/tool/CodeExecutionTool.java:139-197 | an exit keeps its code and is an error iff non-zero; a timeout is an error with code -1 and the note; a failure is an error result |
| CodeExecution.BlockedResult | src/main/java/ai/openclaw/tool/CodeExecutionTool.java:132-133 | a refusal is an error saying the command was blocked |
| CodeExecution.Execute | src/main/java/ai/openclaw/tool/CodeExecutionTool.java:124-198 | a missing command throws; a blocked command is refused; any other is run and shaped |
| CodeExecution.BlockedBeforeAnyRun | src/main/java/ai/openclaw/tool/CodeExecutionTool.java:128-134 | a blocked command never reaches the shell: the result is an error whatever the shell would do |
| CodeExecution.WarningsOnlyLogged | src/main/java/ai/openclaw/tool/CodeExecutionTool.java:137 | the risky-pattern list never changes the result |
| CodeExecution.OneLineSuccess | src/main/java/ai/openclaw/tool/CodeExecutionTool.java:185-192 | a command printing one trimmed line and exiting 0 returns exactly that line as a success |
| Workspace.Names | src/main/java/ai/openclaw/tool/FileReadTool.java:120 | the names of a path are non-empty and free of slashes |
| Workspace.Normalize | src/main/java/ai/openclaw/tool/FileReadTool.java:124 | normalisation leaves no "." or ".." and never lengthens the path |
| Workspace.NormalizeKeepsClean | src/main/java/ai/openclaw/tool/FileReadTool.java:124 | a normal path is its own normal form |
| Workspace.NormalizeIdempotent | src/main/java/ai/openclaw/tool/FileReadTool.java:124 | normalising twice is normalising once |
| Workspace.NormalizeDescends | src/main/java/ai/openclaw/tool/FileReadTool.java:121-124 | names without ".." only descend below a normal base |
| Workspace.NormalizeClimbs | src/main/java/ai/openclaw/tool/FileReadTool.java:124 | each ".." climbs one name and never above the root |
| Workspace.WorkspaceRoot | src/main/java/ai/openclaw/tool/FileReadTool.java:28-30 | the workspace root is in normal form: no "." or ".." names |
| Workspace.ResolvePath | src/main/java/ai/openclaw/tool/FileReadTool.java:119-130 | a NUL character is an invalid path; otherwise the normalised path is returned exactly when it lies within the root |
| Workspace.RelativeStaysInside | src/main/java/ai/openclaw/tool/FileReadTool.java:119-130 | a relative path without ".." resolves inside the workspace |
| Workspace.ClimbingEscapes | src/main/java/ai/openclaw/tool/FileReadTool.java:119-130 | ".." names alone always escape a workspace below the root |
| Workspace.AbsoluteCheckedAsIs | src/main/java/ai/openclaw/tool/FileReadTool.java:120-125 | a normal absolute path is accepted exactly when the root is one of its leading parts |
| Workspace.NamesOfRender | src/main/java/ai/openclaw/tool/FileReadTool.java:76 | a rendered path parses back to the same names |
| Workspace.Children | src/main/java/ai/openclaw/tool/FileReadTool.java:77 | the entries of a directory are exactly the paths one name below it |
| Workspace.InsertName | src/main/java/ai/openclaw/tool/FileReadTool.java:78 | insertion keeps a name sequence sorted and adds exactly the name |
| Workspace.SortedOf | src/main/java/ai/openclaw/tool/FileReadTool.java:78 | the ascending order of a set of names holds exactly those names |
| Workspace.SortedUnique | src/main/java/ai/openclaw/tool/FileReadTool.java:78 | a set of names has only one ascending order |
| Workspace.SortNames | src/main/java/ai/openclaw/tool/FileReadTool.java:78 | sorting the entries gives their ascending order whatever order the directory yields |
| Workspace.DeepestExisting | src/main/java/ai/openclaw/tool/FileWriteTool.java:75 | finds the deepest leading part of a directory that exists |
| Workspace.WithDirectories | src/main/java/ai/openclaw/tool/FileWriteTool.java:75 | creating directories adds exactly the missing leading parts, as directories, and keeps every entry |
| Workspace.WriteFailure | src/main/java/ai/openclaw/tool/FileWriteTool.java:78 | writing fails exactly when the path is a directory or its parent is not one |
| Workspace.FileSystem.CreateDirectories | src/main/java/ai/openclaw/tool/FileWriteTool.java:74-76 | fails, creating nothing, exactly when a file lies along the path; otherwise the missing directories are created |
| Workspace.FileSystem.WriteString | src/main/java/ai/openclaw/tool/FileWriteTool.java:78 | the file holds exactly the content afterwards, or nothing changes on failure |
| FileRead.EntryLine | src/main/java/ai/openclaw/tool/FileReadTool.java:78-81 | an entry line is marked [DIR] exactly for a directory and ends with the name |
| FileRead.CharsRead | src/main/java/ai/openclaw/tool/FileReadTool.java:93-97 | the bounded read fills the buffer or takes the whole text |
| FileRead.ReadFile | src/main/java/ai/openclaw/tool/FileReadTool.java:90-107 | reference definition: whole when at most 16384 bytes, else the buffered prefix and the size note; SmallFileReadWhole and LargeFileShowsPrefix state it |
| FileRead.ReadOutcome | src/main/java/ai/openclaw/tool/FileReadTool.java:59-113 | reference definition of execute; ReadsOnlyInside and WriteThenRead state its properties |
| FileRead.ListDirectory | src/main/java/ai/openclaw/tool/FileReadTool.java:73-83 | the listing is the header and one line per entry in ascending name order |
| FileRead.Execute | src/main/java/ai/openclaw/tool/FileReadTool.java:59-113 | execute gives the reference outcome on the current file system |
| FileRead.EntryLinesShowEach | src/main/java/ai/openclaw/tool/FileReadTool.java:77-81 | each listed name has its line |
| FileRead.ListingShowsEveryEntry | src/main/java/ai/openclaw/tool/FileReadTool.java:73-88 | a listing that fits shows every entry of the directory |
| FileRead.LargeFileShowsPrefix | src/main/java/ai/openclaw/tool/FileReadTool.java:90-104 | a large file shows more than a quarter of its byte count in leading characters, then the size note |
| FileRead.SmallFileReadWhole | src/main/java/ai/openclaw/tool/FileReadTool.java:106-107 | a file of at most 16384 bytes is returned exactly |
| FileRead.ReadsOnlyInside | src/main/java/ai/openclaw/tool/FileReadTool.java:64-71 | only an existing path inside the workspace is read; a path outside is refused whatever the disk holds |
| FileWrite.Execute | src/main/java/ai/openclaw/tool/FileWriteTool.java:62-85 | execute gives the reference outcome and leaves the reference file system |
| FileWrite.Store | src/main/java/ai/openclaw/tool/FileWriteTool.java:73-78 | reference definition of createDirectories then writeString; StoreEffect and StoreConfined state its effect |
| FileWrite.WriteStep | src/main/java/ai/openclaw/tool/FileWriteTool.java:62-85 | reference definition of execute with the file system afterwards; FailedWriteChangesNothing and SuccessfulWriteConfined state its properties |
| FileWrite.CreatedWellFormed | src/main/java/ai/openclaw/tool/FileWriteTool.java:74-76 | created parent directories keep the file system well formed |
| FileWrite.NothingToCreate | src/main/java/ai/openclaw/tool/FileWriteTool.java:74-76 | when the parents exist, creating them changes nothing |
| FileWrite.StoreEffect | src/main/java/ai/openclaw/tool/FileWriteTool.java:73-78 | storing fails exactly when the path is a directory or a file lies along its parent; a failure changes nothing |
| FileWrite.StoreConfined | src/main/java/ai/openclaw/tool/FileWriteTool.java:73-78 | a successful store touches only the path and its leading parts |
| FileWrite.FailedWriteChangesNothing | src/main/java/ai/openclaw/tool/FileWriteTool.java:68-84 | a write that does not succeed leaves the file system as it was |
| FileWrite.SuccessfulWriteConfined | src/main/java/ai/openclaw/tool/FileWriteTool.java:68-79 | a successful write is inside the workspace and changes only the target and new parent directories |
| FileWrite.WriteThenRead | src/main/java/ai/openclaw/tool/FileWriteTool.java:78-79 | a file_read of a small file just written returns exactly its content |
| WebSearch.BlockEnd | src/main/java/ai/openclaw/tool/WebSearchTool.java:161-162 | a block ends after its opening and closing tags and within the text |
| WebSearch.RemoveBlocks | src/main/java/ai/openclaw/tool/WebSearchTool.java:161-162 | reference definition of the lazy script and style block removal; BlockRemoved and RemoveBlocksPlain state it |
| WebSearch.RemoveTags | src/main/java/ai/openclaw/tool/WebSearchTool.java:164 | reference definition of the tag replacement; TagsGone and TagReplaced state it |
| WebSearch.DecodeEntities | src/main/java/ai/openclaw/tool/WebSearchTool.java:166-171 | reference definition: the six replacements in source order; EscapedEntityDecodedTwice shows the order matters |
| WebSearch.CollapseSpaces | src/main/java/ai/openclaw/tool/WebSearchTool.java:173 | reference definition of the whitespace collapse; CollapseNoDoubleSpace states it |
| WebSearch.StripHtml | src/main/java/ai/openclaw/tool/WebSearchTool.java:159-175 | reference definition of stripHtml as the five passes in order; StripHtmlSpacing states its result |
| WebSearch.BlockRemoved | src/main/java/ai/openclaw/tool/WebSearchTool.java:161-162 | each script or style block up to the nearest closing tag becomes one space |
| WebSearch.RemoveBlocksPlain | src/main/java/ai/openclaw/tool/WebSearchTool.java:161-162 | text without '<' passes the block removal unchanged |
| WebSearch.TagsGone | src/main/java/ai/openclaw/tool/WebSearchTool.java:164 | no tag is left after the tag replacement |
| WebSearch.TagReplaced | src/main/java/ai/openclaw/tool/WebSearchTool.java:164 | each tag becomes one space and the scan goes on after it |
| WebSearch.RemoveTagsPlain | src/main/java/ai/openclaw/tool/WebSearchTool.java:164 | text without '<' passes the tag replacement unchanged |
| WebSearch.PlainTextNotDecoded | src/main/java/ai/openclaw/tool/WebSearchTool.java:166-171 | text without '&' is not changed by entity decoding |
| WebSearch.EscapedEntityDecodedTwice | src/main/java/ai/openclaw/tool/WebSearchTool.java:166-171 | "&amp;lt;" decodes to "<" because &amp; is decoded first |
| WebSearch.CollapseNoDoubleSpace | src/main/java/ai/openclaw/tool/WebSearchTool.java:173 | after the collapse no two whitespace characters are adjacent |
| WebSearch.StripHtmlSpacing | src/main/java/ai/openclaw/tool/WebSearchTool.java:159-175 | the page text has no blank ends and no two whitespace characters in a row |
| WebSearch.AddressProblem | src/main/java/ai/openclaw/tool/WebSearchTool.java:137-153 | an address is refused exactly when it is loopback, site-local, link-local, wildcard or multicast |
| WebSearch.IsLoopback | src/main/java/ai/openclaw/tool/WebSearchTool.java:138 | reference definition: 127.0.0.0/8 and ::1 |
| WebSearch.IsSiteLocal | src/main/java/ai/openclaw/tool/WebSearchTool.java:141 | reference definition: 10/8, 172.16/12, 192.168/16 and fec0::/10 |
| WebSearch.IsLinkLocal | src/main/java/ai/openclaw/tool/WebSearchTool.java:144 | reference definition: 169.254/16 and fe80::/10 |
| WebSearch.IsAnyLocal | src/main/java/ai/openclaw/tool/WebSearchTool.java:147 | reference definition: 0.0.0.0 and :: |
| WebSearch.IsMulticast | src/main/java/ai/openclaw/tool/WebSearchTool.java:150 | reference definition: 224/4 and ff00::/8 |
| WebSearch.FirstProblemIff | src/main/java/ai/openclaw/tool/WebSearchTool.java:137-155 | nothing is refused exactly when every resolved address is public |
| WebSearch.FirstProblemSkips | src/main/java/ai/openclaw/tool/WebSearchTool.java:137-153 | public addresses before the first refused one do not change the refusal |
| WebSearch.UrlProblem | src/main/java/ai/openclaw/tool/WebSearchTool.java:111-156 | reference definition of validateUrl; ValidUrlIff characterises when it passes |
| WebSearch.ValidateUrl | src/main/java/ai/openclaw/tool/WebSearchTool.java:111-156 | the check's loop gives the reference verdict |
| WebSearch.ValidUrlIff | src/main/java/ai/openclaw/tool/WebSearchTool.java:111-156 | a URL passes iff it parses, its scheme is http or https in any case, its host is not blank and resolves, and every address is public |
| WebSearch.TruncateText | src/main/java/ai/openclaw/tool/WebSearchTool.java:91-93 | a long page text is cut to 8192 chars plus the note, and a short one is kept |
| WebSearch.FetchResult | src/main/java/ai/openclaw/tool/WebSearchTool.java:81-101 | the result is an error exactly when the fetch threw or the status is outside 200-299; a page result is at most 8192 characters plus the note |
| WebSearch.Execute | src/main/java/ai/openclaw/tool/WebSearchTool.java:63-102 | execute gives the reference outcome of validation and fetch |
| WebSearch.BlockedUrlNotFetched | src/main/java/ai/openclaw/tool/WebSearchTool.java:67-72 | a URL that fails validation is never fetched and gives a "URL blocked" error |
| WebSearch.PageOnlyFromPublicAddress | src/main/java/ai/openclaw/tool/WebSearchTool.java:63-102 | a page is returned only for a URL whose every address is public, and its text is bounded |
| RpcRouters.MethodNotFound | src/main/java/ai/openclaw/gateway/RpcRouter.java:29-33 | an unknown method gets an object whose only field names it as not found |
| RpcRouters.RpcRouter.constructor | src/main/java/ai/openclaw/gateway/RpcRouter.java:17 | a new router has no routes |
| RpcRouters.RpcRouter.Register | src/main/java/ai/openclaw/gateway/RpcRouter.java:20-22 | the handler replaces any earlier one for the method; the other methods keep theirs |
| RpcRouters.RpcRouter.Route | src/main/java/ai/openclaw/gateway/RpcRouter.java:24-34 | a registered method runs its handler, an unknown one gets the not-found object, and null comes only from a handler |
| RpcRouters.RegisterThenRoute | src/main/java/ai/openclaw/gateway/RpcRouter.java:20-28 | after register(m, h), route(m, p) is h(p) |
| Utf8.EncodeCharDecodes | src/main/java/ai/openclaw/gateway/GatewayServer.java:77-81 | one character's bytes announce their length and decode to the character (RFC 3629, section 3) |
| Utf8.Encode | src/main/java/ai/openclaw/gateway/GatewayServer.java:77-81 | getBytes(UTF_8) takes one to four bytes per character |
| Utf8.EncodeInjective | src/main/java/ai/openclaw/gateway/GatewayServer.java:77-81 | different strings have different encodings |
| Gateway.UpToAmpersand | src/main/java/ai/openclaw/gateway/GatewayServer.java:66-69 | the token runs up to the first '&' or the end |
| Gateway.IsBearer | src/main/java/ai/openclaw/gateway/GatewayServer.java:57 | reference definition: the header starts with "bearer " in any letter case; BearerTokenExtracted uses it |
| Gateway.ExtractToken | src/main/java/ai/openclaw/gateway/GatewayServer.java:54-74 | a bearer header's trimmed credential wins; otherwise the token query parameter, present exactly when "token=" appears |
| Gateway.BearerTokenExtracted | src/main/java/ai/openclaw/gateway/GatewayServer.java:56-59 | "Bearer <token>" in any letter case presents exactly the token |
| Gateway.QueryTokenExtracted | src/main/java/ai/openclaw/gateway/GatewayServer.java:62-71 | "?token=<token>" presents exactly the token when the path holds no "token=" and the token no '&' |
| Gateway.ConstantTimeEquals | src/main/java/ai/openclaw/gateway/GatewayServer.java:77-81 | the comparison holds exactly when the strings are equal |
| Gateway.Authorized | src/main/java/ai/openclaw/gateway/GatewayServer.java:35-48 | reference definition of who may connect: no or an empty configured token, or a presented token equal to it; OnOpen admits exactly these |
| Gateway.GatewayServer.constructor | src/main/java/ai/openclaw/gateway/GatewayServer.java:24-28 | a new server keeps its token and router and has no clients |
| Gateway.GatewayServer.OnOpen | src/main/java/ai/openclaw/gateway/GatewayServer.java:31-52 | a connection joins the table iff authorized; otherwise it is closed with 1008 "Unauthorized" and nothing changes |
| Gateway.GatewayServer.OnClose | src/main/java/ai/openclaw/gateway/GatewayServer.java:84-88 | the connection's entry is removed |
| Gateway.GatewayServer.OnMessage | src/main/java/ai/openclaw/gateway/GatewayServer.java:91-120 | a reply is sent iff the sender is a client and the message parses with a method, under the request's id with the routed body |
| Gateway.Respond | src/main/java/ai/openclaw/gateway/GatewayServer.java:103-115 | a node is a result, a null node is -32601, an exception is -32603 with its message |
| Gateway.RepliesOnlyToAdmitted | src/main/java/ai/openclaw/gateway/GatewayServer.java:92-95 | only connections admitted by onOpen are ever answered |
| Gateway.UnknownMethodAnsweredAsResult | src/main/java/ai/openclaw/gateway/GatewayServer.java:103-111 | an unregistered method is answered with the router's not-found object as a result, never with -32601 |
| SlackChannels.IdRun | src/main/java/ai/openclaw/channel/slack/SlackChannel.java:100 | the maximal run of [A-Z0-9] at the front |
| SlackChannels.SpaceRun | src/main/java/ai/openclaw/channel/slack/SlackChannel.java:100 | the maximal run of whitespace at the front |
| SlackChannels.MentionAt | src/main/java/ai/openclaw/channel/slack/SlackChannel.java:100 | a mention match starts with '<' and has at least four characters |
| SlackChannels.StripMentions | src/main/java/ai/openclaw/channel/slack/SlackChannel.java:100 | reference definition of the left-to-right mention removal; MentionRemoved, StripMentionsPlain and NoRescan state it |
| SlackChannels.MentionRemoved | src/main/java/ai/openclaw/channel/slack/SlackChannel.java:100 | each mention is removed with the whitespace after it |
| SlackChannels.StripMentionsPlain | src/main/java/ai/openclaw/channel/slack/SlackChannel.java:100 | text without '<' is not changed by mention stripping |
| SlackChannels.NoRescan | src/main/java/ai/openclaw/channel/slack/SlackChannel.java:100 | a mention formed by joining text around a removed one stays |
| SlackChannels.CleanText | src/main/java/ai/openclaw/channel/slack/SlackChannel.java:100 | the text for the agent has no blank ends |
| SlackChannels.Filter | src/main/java/ai/openclaw/channel/slack/SlackChannel.java:75-103 | an accepted event has no subtype or bot id, a user other than the bot, non-blank text, and a cleaned text that is not empty |
| SlackChannels.FilterAcceptsOrdinary | src/main/java/ai/openclaw/channel/slack/SlackChannel.java:80-103 | every other event is accepted, so the filter drops nothing else |
| SlackChannels.SessionKey | src/main/java/ai/openclaw/channel/slack/SlackChannel.java:132 | reference definition: "slack:" and the user id; SessionKeyInjective states it |
| SlackChannels.SessionKeyInjective | src/main/java/ai/openclaw/channel/slack/SlackChannel.java:132 | different users have different session keys |
| SlackChannels.SlackChannel.constructor | src/main/java/ai/openclaw/channel/slack/SlackChannel.java:27-31 | a new channel keeps its executor and store and has no cached sessions |
| SlackChannels.SlackChannel.GetOrCreateSession | src/main/java/ai/openclaw/channel/slack/SlackChannel.java:131-135 | a cached session is returned as is; otherwise a new "slack" session is created, registered and cached |
| SlackChannels.SlackChannel.Ask | src/main/java/ai/openclaw/channel/slack/SlackChannel.java:109 | the agent answers exactly when the store holds the session, which stays registered and is stamped with the message time |
| SlackChannels.SlackChannel.Respond | src/main/java/ai/openclaw/channel/slack/SlackChannel.java:107-116 | as written: the answer is posted iff posting works and the cached session is still in the store; otherwise the apology |
| SlackChannels.SlackChannel.GetOrCreateLiveSession | src/main/java/ai/openclaw/channel/slack/SlackChannel.java:131-135 | corrected: a cached session is used only while the store holds it, else a new one replaces it |
| SlackChannels.SlackChannel.RespondLive | src/main/java/ai/openclaw/channel/slack/SlackChannel.java:107-116 | corrected: the answer is posted exactly when posting works, evicted session or not |
| SlackChannels.SlackChannel.OnMessage | src/main/java/ai/openclaw/channel/slack/SlackChannel.java:74-119 | as written: an ignored event gets no reply and changes nothing; an accepted one is answered in its channel or with the apology, posted exactly when posting works and the cached session is still in the store or the session is new |
| SlackChannels.SlackChannel.OnMessageCorrected | src/main/java/ai/openclaw/channel/slack/SlackChannel.java:74-119 | corrected: the handler with the checked lookup; an accepted message is answered exactly when posting works, evicted session or not |
| SlackChannels.FirstMessage | src/main/java/ai/openclaw/channel/slack/SlackChannel.java:107-116 | a user's first message creates, caches and answers from a new session |
| SlackChannels.MessageAfterEviction | src/main/java/ai/openclaw/channel/slack/SlackChannel.java:107-116 | as written: after the cached session is evicted, the next message gets the apology |
| SlackChannels.StaleSessionApology | src/main/java/ai/openclaw/channel/slack/SlackChannel.java:107-116 | as written: a cached session missing from the store always yields the apology |
| SlackChannels.EvictedUserGetsApology | src/main/java/ai/openclaw/channel/slack/SlackChannel.java:131-135 | as written: a user silent for more than a day gets only the apology |
| SlackChannels.EvictedUserServedAgain | src/main/java/ai/openclaw/channel/slack/SlackChannel.java:131-135 | corrected: the same user is answered again after eviction |

## Left out

- The language model, HTTP, URI parsing, DNS and the page fetch are parameters. The request headers (x-api-key, anthropic-version, content-type) and the HTTP client timeouts are not modelled.
- Threads and processes: the shell process, its reader thread and timeout, and the store's background eviction thread with its 15-minute sleep. The eviction itself is modelled, at a given instant.
- Concurrency of ConcurrentHashMap and of WebSocket callbacks: each operation runs alone.
- Regular expressions: the blocked and risky command patterns are predicates. The fixed patterns of stripHtml and of mention stripping are written out. Java's `$` matching before a final line terminator does not arise in the trailing-slash pattern's inputs and is not modelled.
- Disk I/O: a log file is a list of lines, each with the message Jackson parses from it or a failure. Jackson's text parser and writer are not modelled.
- SessionStores.SessionStore.PersistTurn: does not model the IOException of the file append, which the source catches and logs.
- The clock: each operation reads one `now`.
- Gateway.ConstantTimeEquals: states only the result, not the timing independence MessageDigest.isEqual provides.
- Strings are sequences of Unicode scalar values. Java's UTF-16 code units and unpaired surrogates are not modelled, so lengths count characters.
- FileRead.CharsRead: BufferedReader.read is taken to fill the buffer as far as the text goes, so the source's "read nothing" branch is unreachable in the model.
- Workspace.FileSystem: only structural I/O failures are modelled (a file along a path, a directory as target, a missing parent). Permissions, full disks and symbolic links are not. A file's content is a string, so a file that is not valid UTF-8 cannot be represented: the MalformedInputException of Files.readString, which the source reports as "Failed to read file" (FileReadTool.java:109-112), is not modelled.
- WebSearch.AddressProblem: IPv6 scope ids and IPv4-mapped IPv6 addresses are not modelled.
- Case-insensitive comparisons use ASCII case folding only.
- NO_AGENT_CONFIG, MISSING_FIELD_MESSAGE and INVALID_PATH_MESSAGE are the JDK's exception texts and are left unspecified. Exception messages that may be null are rendered as Java's "null".
- AgentExecutors.AgentExecutor: IDENTITY.md is read once per executor rather than once per loop iteration. The file does not change during a turn in the model.
- RpcRouters.RpcRouter: handlers are functions of their params without side effects.
- AgentExecutors.RunTools: inside the agent loop each tool is a function of its input alone, so what one tool call does (a file_write, say) is not seen by a later tool call in the same response or in a later iteration. FileWrite.Execute and FileRead.Execute on a shared FileSystem model that composition outside the loop.
- SlackChannels.SlackChannel: the Bolt app, socket-mode plumbing, start, stop and sendMessage are not modelled, and `ctx.say` is assumed not to throw. Posting success is the parameter `postOk`.
- LlmProviderFactory, MockLlmProvider, ConsoleChannel, the CLI commands, ConfigLoader/Json, RpcProtocol and SlackPostTool are not part of this model.

## Findings

| source | as written | input that shows it | evidently intended | confidence | as-written member | corrected member |
|---|---|---|---|---|---|---|
| src/main/java/ai/openclaw/channel/slack/SlackChannel.java:131-135 | getOrCreateSession returns the cached session without checking that the store still holds it | a Slack user silent for more than 24 hours: evictExpiredSessions (SessionStore.java:114-124) drops the session, execute then throws "Session not found", and every later message gets only the apology | create a new session when the cached one has been evicted | not executed | SlackChannels.EvictedUserGetsApology | SlackChannels.SlackChannel.OnMessageCorrected |
