/** The agent loop: one user turn is answered by calling the model up to
    MAX_TOOL_ITERATIONS times, running the tools it asks for in between. */
module AgentExecutors {
  import opened Common
  import opened JsonValues
  import opened Messages
  import opened Sessions
  import opened SessionStores
  import opened LlmResponses
  import opened SystemPrompts
  import opened ToolResults
  import opened AnthropicProviders

  const MAX_TOOL_ITERATIONS: nat := 10
  const MAX_ITERATIONS_TEXT: string :=
    "I've reached the maximum number of tool use steps. Here's what I have so far — please try rephrasing your request if you need more."
  /** The message of the NullPointerException that config.getAgent().getModel()
      throws when the configuration has no agent section. Its text comes from
      the Java runtime, not from this program, so it is left unspecified. */
  const NO_AGENT_CONFIG: string

  /** The LlmProvider interface as an oracle: what complete and
      completeWithTools return (or the message they throw) for a context. */
  datatype LlmProvider = LlmProvider(
    complete: seq<Message> -> Result<string, string>,
    completeWithTools: seq<Message> -> Result<LlmResponse, string>)

  /** The tool registry: tools by name, a later tool replacing an earlier
      one of the same name. */
  function Registry(tools: seq<Tool>): (r: map<string, Tool>)
    ensures forall n :: n in r <==> exists i :: 0 <= i < |tools| && tools[i].name == n
  {
    if tools == [] then map[]
    else
      var init := tools[..|tools| - 1];
      assert forall i :: 0 <= i < |init| ==> init[i] == tools[i];
      Registry(init)[tools[|tools| - 1].name := tools[|tools| - 1]]
  }

  /** A tool is found under its name unless a later tool has the same name. */
  lemma {:induction false} RegistryLastWins(tools: seq<Tool>, i: nat)
    requires i < |tools|
    requires forall j :: i < j < |tools| ==> tools[j].name != tools[i].name
    ensures tools[i].name in Registry(tools) && Registry(tools)[tools[i].name] == tools[i]
  {
    if i < |tools| - 1 {
      RegistryLastWins(tools[..|tools| - 1], i);
    }
  }

  /** The JSON of one block as serializeContentBlocks writes it; a block of
      any other type becomes an empty object. */
  function BlockJson(b: ContentBlock): Json
  {
    if b.kind == KIND_TEXT then
      JObj(map["type" := JStr(KIND_TEXT), "text" := TextOrNull(b.text)])
    else if b.kind == KIND_TOOL_USE then
      JObj(map["type" := JStr(KIND_TOOL_USE), "id" := TextOrNull(b.toolUseId),
               "name" := TextOrNull(b.toolName), "input" := NodeOrNull(b.toolInput)])
    else JObj(map[])
  }

  /** The "content" array of the assistant_tool_use message. */
  function SerializedBlocks(blocks: seq<ContentBlock>): (r: seq<Json>)
    ensures |r| == |blocks|
  {
    if blocks == [] then []
    else SerializedBlocks(blocks[..|blocks| - 1]) + [BlockJson(blocks[|blocks| - 1])]
  }

  /** Block i of the array is the object written for block i. */
  lemma {:induction false} SerializedBlockAt(blocks: seq<ContentBlock>, i: nat)
    requires i < |blocks|
    ensures SerializedBlocks(blocks)[i] == BlockJson(blocks[i])
  {
    if i < |blocks| - 1 {
      SerializedBlockAt(blocks[..|blocks| - 1], i);
    }
  }

  /** serializeContentBlocks: one object per block, in order. */
  method SerializeContentBlocks(blocks: seq<ContentBlock>) returns (serialized: Json)
    ensures serialized == JArr(SerializedBlocks(blocks))
  {
    var items: seq<Json> := [];
    for i := 0 to |blocks|
      invariant items == SerializedBlocks(blocks[..i])
    {
      assert blocks[..i + 1][..i] == blocks[..i];
      var block := blocks[i];
      var node: map<string, Json> := map[];
      if block.kind == KIND_TEXT {
        node := node["type" := JStr(KIND_TEXT)];
        node := node["text" := TextOrNull(block.text)];
      } else if block.kind == KIND_TOOL_USE {
        node := node["type" := JStr(KIND_TOOL_USE)];
        node := node["id" := TextOrNull(block.toolUseId)];
        node := node["name" := TextOrNull(block.toolName)];
        node := node["input" := NodeOrNull(block.toolInput)];
      }
      items := items + [JObj(node)];
    }
    assert blocks[..|blocks|] == blocks;
    serialized := JArr(items);
  }

  /** What parsing gives back for a stored block: a missing tool input was
      written as a JSON null and reads back as one. */
  function ReadBack(b: ContentBlock): ContentBlock
  {
    if b.kind == KIND_TOOL_USE && b.toolInput.None? then b.(toolInput := Some(JNull)) else b
  }

  /** Parsing one written text block in front of parsed ones. */
  lemma ParseWrittenText(item: Json, b: ContentBlock, rest: seq<Json>, tail: seq<ContentBlock>)
    requires item == BlockJson(b) && ParsedShape(b) && b.kind == KIND_TEXT
    requires ParseBlocks(rest) == Success(tail)
    ensures ParseBlocks([item] + rest) == Success([ReadBack(b)] + tail)
  {
    assert ([item] + rest)[1..] == rest;
    assert Get(item, "type") == Some(JStr(KIND_TEXT));
    assert AsText(JStr(KIND_TEXT)) == KIND_TEXT;
    assert Get(item, "text") == Some(JStr(b.text.value));
  }

  /** Parsing one written tool_use block in front of parsed ones. */
  lemma ParseWrittenToolUse(item: Json, b: ContentBlock, rest: seq<Json>, tail: seq<ContentBlock>)
    requires item == BlockJson(b) && ParsedShape(b) && b.kind == KIND_TOOL_USE
    requires ParseBlocks(rest) == Success(tail)
    ensures ParseBlocks([item] + rest) == Success([ReadBack(b)] + tail)
  {
    assert ([item] + rest)[1..] == rest;
    assert Get(item, "type") == Some(JStr(KIND_TOOL_USE));
    assert AsText(JStr(KIND_TOOL_USE)) == KIND_TOOL_USE;
    assert Get(item, "id") == Some(JStr(b.toolUseId.value));
    assert Get(item, "name") == Some(JStr(b.toolName.value));
    assert Get(item, "input") == Some(NodeOrNull(b.toolInput));
    assert ReadBack(b) == ToolUseBlock(b.toolUseId, b.toolName, Some(NodeOrNull(b.toolInput)));
  }

  /** Every block read back. */
  function ReadBacks(blocks: seq<ContentBlock>): (r: seq<ContentBlock>)
    ensures |r| == |blocks|
    ensures forall i :: 0 <= i < |blocks| ==> r[i] == ReadBack(blocks[i])
  {
    if blocks == [] then [] else [ReadBack(blocks[0])] + ReadBacks(blocks[1..])
  }

  /** The array written for blocks starts with the object for the first. */
  lemma {:induction false} SerializedCons(blocks: seq<ContentBlock>)
    requires blocks != []
    ensures SerializedBlocks(blocks) == [BlockJson(blocks[0])] + SerializedBlocks(blocks[1..])
  {
    if |blocks| > 1 {
      var init := blocks[..|blocks| - 1];
      SerializedCons(init);
      assert init[1..] == blocks[1..][..|blocks[1..]| - 1];
    }
  }

  /** The blocks stored for replay are the blocks parseResponse produced:
      parsing what serializeContentBlocks wrote returns every block (a
      missing tool input as a JSON null). */
  lemma {:induction false} SerializeThenParse(blocks: seq<ContentBlock>)
    requires forall i :: 0 <= i < |blocks| ==> ParsedShape(blocks[i])
    ensures ParseBlocks(SerializedBlocks(blocks)) == Success(ReadBacks(blocks))
  {
    if blocks != [] {
      SerializeThenParse(blocks[1..]);
      SerializedCons(blocks);
      if blocks[0].kind == KIND_TEXT {
        ParseWrittenText(BlockJson(blocks[0]), blocks[0], SerializedBlocks(blocks[1..]), ReadBacks(blocks[1..]));
      } else {
        ParseWrittenToolUse(BlockJson(blocks[0]), blocks[0], SerializedBlocks(blocks[1..]), ReadBacks(blocks[1..]));
      }
    }
  }

  /** The text returned (and stored) for the loop's result: a thrown
      exception becomes "Error: " + its message. */
  function ReplyText(result: Result<string, string>): (t: string)
    ensures result.Success? ==> t == result.value
    ensures result.Failure? ==> t == "Error: " + result.error
  {
    match result
    case Success(text) => text
    case Failure(message) => "Error: " + message
  }

  /** The tool results of one iteration so far, and the message of the
      exception that stopped it, if one did. */
  datatype ToolRun = ToolRun(messages: seq<Message>, failure: Option<string>)

  /** What the loop does with one tool_use block. */
  function RunTool(b: ContentBlock, registry: map<string, Tool>): (o: ToolOutcome)
    ensures (b.toolName.None? || b.toolName.value !in registry) ==>
              o == Returned(Error("Unknown tool: " + NullText(b.toolName)))
    ensures b.toolName.Some? && b.toolName.value in registry ==>
              o == registry[b.toolName.value].execute(b.toolInput)
  {
    if b.toolName.Some? && b.toolName.value in registry then registry[b.toolName.value].execute(b.toolInput)
    else Returned(Error("Unknown tool: " + NullText(b.toolName)))
  }

  /** The inner loop over the tool_use blocks: one tool_result message per
      block, in block order, carrying the block's id, until a tool throws. */
  function RunTools(blocks: seq<ContentBlock>, registry: map<string, Tool>, now: Instant): (r: ToolRun)
    ensures r.failure.None? ==> |r.messages| == |blocks|
    ensures r.failure.Some? ==> |r.messages| < |blocks|
    ensures r.failure.Some? ==>
              && RunTool(blocks[|r.messages|], registry).Threw?
              && r.failure.value == RunTool(blocks[|r.messages|], registry).message
  {
    if blocks == [] then ToolRun([], None)
    else
      var init := blocks[..|blocks| - 1];
      var b := blocks[|blocks| - 1];
      var prev := RunTools(init, registry, now);
      assert forall k :: 0 <= k < |init| ==> init[k] == blocks[k];
      if prev.failure.Some? then prev
      else
        match RunTool(b, registry)
        case Threw(message) => ToolRun(prev.messages, Some(message))
        case Returned(result) =>
          ToolRun(prev.messages + [ToolResultMessage(b.toolUseId, result.output, result.isError, now)], None)
  }

  /** Message `m` is the tool result of block `b`: it carries the block's id
      and the output and error flag of what the block's tool returned. */
  predicate Answers(m: Message, b: ContentBlock, registry: map<string, Tool>)
  {
    && m.role == ROLE_TOOL_RESULT && m.toolUseId == b.toolUseId
    && RunTool(b, registry).Returned?
    && m.content == Some(RunTool(b, registry).result.output)
    && m.toolError == RunTool(b, registry).result.isError
  }

  /** Tool result k answers tool_use block k. */
  lemma {:induction false} RunToolsMessages(blocks: seq<ContentBlock>, registry: map<string, Tool>, now: Instant)
    ensures var r := RunTools(blocks, registry, now);
            forall k :: 0 <= k < |r.messages| ==> Answers(r.messages[k], blocks[k], registry)
  {
    if blocks != [] {
      var init := blocks[..|blocks| - 1];
      var b := blocks[|blocks| - 1];
      var prev := RunTools(init, registry, now);
      var r := RunTools(blocks, registry, now);
      RunToolsMessages(init, registry, now);
      if prev.failure.None? && RunTool(b, registry).Returned? {
        var o := RunTool(b, registry).result;
        assert r.messages == prev.messages + [ToolResultMessage(b.toolUseId, o.output, o.isError, now)];
      } else {
        assert r.messages == prev.messages;
      }
      forall k | 0 <= k < |r.messages|
        ensures Answers(r.messages[k], blocks[k], registry)
      {
        if k < |prev.messages| {
          assert r.messages[k] == prev.messages[k] && blocks[k] == init[k];
        }
      }
    }
  }

  /** What one iteration did: the messages it added to the session, and
      the result the loop ends with, if it ends here (the model answered
      without asking for tools, a call threw, or a tool threw). */
  datatype TurnOutcome = TurnOutcome(added: seq<Message>, stop: Option<Result<string, string>>)

  /** What the agent loop did: its result (a thrown exception as Failure),
      the messages it added to the session, the context of every model call
      it made, in order, and the messages the iteration of each call added. */
  datatype LoopOutcome = LoopOutcome(result: Result<string, string>, added: seq<Message>,
                                     contexts: seq<seq<Message>>, turns: seq<seq<Message>>)

  /** Every message the loop adds is an assistant_tool_use or a
      tool_result, starting with an assistant_tool_use: the shape
      (assistant_tool_use, tool_result*)*. */
  predicate ToolTurns(added: seq<Message>)
  {
    (added != [] ==> added[0].role == ROLE_ASSISTANT_TOOL_USE)
    && forall k :: 0 <= k < |added| ==> added[k].role in {ROLE_ASSISTANT_TOOL_USE, ROLE_TOOL_RESULT}
  }

  /** The messages of consecutive turns, one turn after the other. */
  function Concat(turns: seq<seq<Message>>): seq<Message>
  {
    if turns == [] then [] else turns[0] + Concat(turns[1..])
  }

  lemma ToolTurnsAppend(a: seq<Message>, b: seq<Message>)
    requires a != [] && ToolTurns(a) && ToolTurns(b)
    ensures ToolTurns(a + b)
  {
    assert (a + b)[0] == a[0];
  }

  /** A turn that appends `user` then `added` to session `id` of the view,
      followed by a reply appended to it, appends all three in order. */
  lemma TurnThenReply(view0: map<string, SessionState>, view1: map<string, SessionState>,
                      view2: map<string, SessionState>, id: string, user: Message, added: seq<Message>,
                      reply: Message, now: Instant)
    requires id in view0
    requires view1 == view0[id := view0[id].(messages := view0[id].messages + [user] + added, lastActiveAt := now)]
    requires view2 == view1[id := view1[id].(messages := view1[id].messages + [reply], lastActiveAt := now)]
    ensures view2 == view0[id := view0[id].(messages := view0[id].messages + [user] + added + [reply], lastActiveAt := now)]
  {
  }

  /** The log gets the user message during the turn, then the reply. */
  lemma LogTurnThenReply(appended0: map<string, seq<Message>>, appended1: map<string, seq<Message>>,
                         appended2: map<string, seq<Message>>, name: string, log0: seq<Message>,
                         user: Message, reply: Message)
    requires appended1 == appended0[name := log0 + [user]]
    requires appended2 == appended1[name := appended1[name] + [reply]]
    ensures appended2 == appended0[name := log0 + [user, reply]]
  {
    AppendPair(log0, user, reply);
  }

  /** Two updates of one key of a map, each overriding the last. */
  lemma OverrideTwice<K, V>(m0: map<K, V>, m1: map<K, V>, m2: map<K, V>, k: K, v: V)
    requires k in m1 && k in m2
    requires m1 == m0[k := m1[k]] && m2 == m1[k := m2[k]]
    ensures m2[k := v] == m0[k := v]
  {
  }

  /** Every call's context is the system message, then `history`, then
      the messages of every turn before that call; the turns together are
      what the loop added. */
  predicate ContextsHoldHistory(out: LoopOutcome, system: Message, history: seq<Message>)
  {
    && |out.turns| == |out.contexts|
    && out.added == Concat(out.turns)
    && forall k :: 0 <= k < |out.contexts| ==> out.contexts[k] == [system] + history + Concat(out.turns[..k])
  }

  /** One more call, on the history before the turn's messages, in front
      of calls that hold the history after them. */
  lemma ContextsExtend(result: Result<string, string>, first: seq<Message>, system: Message,
                       history: seq<Message>, added: seq<Message>, rest: LoopOutcome)
    requires ContextsHoldHistory(rest, system, history + added)
    requires first == [system] + history
    ensures ContextsHoldHistory(LoopOutcome(result, added + rest.added, [first] + rest.contexts, [added] + rest.turns),
                                system, history)
  {
    var out := LoopOutcome(result, added + rest.added, [first] + rest.contexts, [added] + rest.turns);
    assert out.turns[1..] == rest.turns;
    assert out.turns[..0] == [];
    forall k | 0 < k < |out.contexts|
      ensures out.contexts[k] == [system] + history + Concat(out.turns[..k])
    {
      assert out.turns[..k][1..] == rest.turns[..k - 1];
      AppendAssociates([system] + history, added, Concat(rest.turns[..k - 1]));
    }
  }

  class AgentExecutor {
    const store: SessionStore
    const llm: LlmProvider
    const agent: Option<AgentConfig>
    const identity: IdentityFile
    const tools: seq<Tool>
    const toolMap: map<string, Tool>
    /** What SystemPromptBuilder.build returns for this configuration and
        identity file. */
    const systemPrompt: string

    /** The constructor fills the registry with the tools in list order. */
    constructor (store: SessionStore, llm: LlmProvider, agent: Option<AgentConfig>, identity: IdentityFile, tools: seq<Tool>)
      ensures this.store == store && this.llm == llm && this.agent == agent
      ensures this.identity == identity && this.tools == tools
      ensures toolMap == Registry(tools)
      ensures systemPrompt == Build(agent, identity)
    {
      this.store := store;
      this.llm := llm;
      this.agent := agent;
      this.identity := identity;
      this.tools := tools;
      this.systemPrompt := Build(agent, identity);
      var registry: map<string, Tool> := map[];
      for i := 0 to |tools|
        invariant registry == Registry(tools[..i])
      {
        assert tools[..i + 1][..i] == tools[..i];
        registry := registry[tools[i].name := tools[i]];
      }
      assert tools[..|tools|] == tools;
      this.toolMap := registry;
    }

    /** The system message that heads every context. */
    function SystemMessage(now: Instant): Message
    {
      NewMessage(ROLE_SYSTEM, Some(systemPrompt), now)
    }

    /** The context of a model call: a fresh system message, then the whole
        session history. */
    function Context(history: seq<Message>, now: Instant): (c: seq<Message>)
      ensures |c| == |history| + 1 && c[0] == SystemMessage(now) && c[1..] == history
    {
      [SystemMessage(now)] + history
    }

    /** One iteration of the loop over the session history `history`. */
    function Turn(history: seq<Message>, now: Instant): (t: TurnOutcome)
      ensures t.stop.None? ==> t.added != []
      ensures tools == [] ==> t == TurnOutcome([], Some(llm.complete(Context(history, now))))
    {
      if tools == [] then TurnOutcome([], Some(llm.complete(Context(history, now))))
      else Respond(llm.completeWithTools(Context(history, now)), now)
    }

    /** What an iteration does with the answer of completeWithTools. */
    function Respond(answer: Result<LlmResponse, string>, now: Instant): (t: TurnOutcome)
      ensures t.stop.None? ==> t.added != []
    {
      match answer
      case Failure(e) => TurnOutcome([], Some(Failure(e)))
      case Success(response) =>
        if !HasToolUse(response) then TurnOutcome([], Some(Success(GetTextContent(response))))
        else
          var run := RunTools(GetToolUseBlocks(response), toolMap, now);
          var added := ToolUseTurn(response, now);
          if run.failure.Some? then TurnOutcome(added, Some(Failure(run.failure.value)))
          else TurnOutcome(added, None)
    }

    /** An iteration adds an assistant_tool_use message and tool results. */
    lemma TurnAddsToolTurns(history: seq<Message>, now: Instant)
      ensures ToolTurns(Turn(history, now).added)
    {
      var context := Context(history, now);
      if tools != [] && llm.completeWithTools(context).Success? && HasToolUse(llm.completeWithTools(context).value) {
        RunToolsMessages(GetToolUseBlocks(llm.completeWithTools(context).value), toolMap, now);
      }
    }

    /** The loop from iteration `iteration` on, over the session history
        `history`. */
    function Loop(iteration: nat, history: seq<Message>, now: Instant): LoopOutcome
      decreases MAX_TOOL_ITERATIONS - iteration, 1
    {
      if iteration >= MAX_TOOL_ITERATIONS then LoopOutcome(Success(MAX_ITERATIONS_TEXT), [], [], [])
      else Iteration(iteration, history, now)
    }

    /** The loop body at iteration `iteration` (below the bound), then the
        rest of the loop when the iteration goes on. */
    function Iteration(iteration: nat, history: seq<Message>, now: Instant): LoopOutcome
      requires iteration < MAX_TOOL_ITERATIONS
      decreases MAX_TOOL_ITERATIONS - iteration, 0
    {
      var turn := Turn(history, now);
      if turn.stop.Some? then LoopOutcome(turn.stop.value, turn.added, [Context(history, now)], [turn.added])
      else
        var rest := Loop(iteration + 1, history + turn.added, now);
        LoopOutcome(rest.result, turn.added + rest.added, [Context(history, now)] + rest.contexts,
                    [turn.added] + rest.turns)
    }

    /** runAgentLoop: the model name is looked up first. */
    function AgentLoop(history: seq<Message>, now: Instant): LoopOutcome
    {
      if agent.None? then LoopOutcome(Failure(NO_AGENT_CONFIG), [], [], []) else Loop(0, history, now)
    }

    /** The model is called at most MAX_TOOL_ITERATIONS times, and at least
        once, from the first iteration on. */
    lemma {:induction false} LoopCallsBounded(iteration: nat, history: seq<Message>, now: Instant)
      requires iteration <= MAX_TOOL_ITERATIONS
      ensures |Loop(iteration, history, now).contexts| <= MAX_TOOL_ITERATIONS - iteration
      ensures iteration < MAX_TOOL_ITERATIONS ==> |Loop(iteration, history, now).contexts| >= 1
      decreases MAX_TOOL_ITERATIONS - iteration
    {
      if iteration < MAX_TOOL_ITERATIONS && Turn(history, now).stop.None? {
        LoopCallsBounded(iteration + 1, history + Turn(history, now).added, now);
      }
    }

    /** The loop adds only (assistant_tool_use, tool_result*)* turns. */
    lemma {:induction false} LoopAddsToolTurns(iteration: nat, history: seq<Message>, now: Instant)
      ensures ToolTurns(Loop(iteration, history, now).added)
      decreases MAX_TOOL_ITERATIONS - iteration
    {
      if iteration < MAX_TOOL_ITERATIONS {
        TurnAddsToolTurns(history, now);
      }
      if iteration < MAX_TOOL_ITERATIONS && Turn(history, now).stop.None? {
        var added := Turn(history, now).added;
        LoopAddsToolTurns(iteration + 1, history + added, now);
        ToolTurnsAppend(added, Loop(iteration + 1, history + added, now).added);
      }
    }

    /** Every call's context is the system message followed by the whole
        history so far: the history the loop started from and every message
        the iterations before that call added. Every iteration but the last
        adds messages, so each context is longer than the one before. */
    lemma {:induction false} LoopContextsFullHistory(iteration: nat, history: seq<Message>, now: Instant)
      ensures ContextsHoldHistory(Loop(iteration, history, now), SystemMessage(now), history)
      ensures forall k :: 0 <= k < |Loop(iteration, history, now).turns| - 1 ==> Loop(iteration, history, now).turns[k] != []
      decreases MAX_TOOL_ITERATIONS - iteration
    {
      if iteration < MAX_TOOL_ITERATIONS {
        var turn := Turn(history, now);
        if turn.stop.None? {
          LoopContextsFullHistory(iteration + 1, history + turn.added, now);
          var rest := Loop(iteration + 1, history + turn.added, now);
          ContextsExtend(rest.result, Context(history, now), SystemMessage(now), history, turn.added, rest);
          var out := Loop(iteration, history, now);
          assert out.turns == [turn.added] + rest.turns;
          forall k | 0 < k < |out.turns| - 1
            ensures out.turns[k] != []
          {
            assert out.turns[k] == rest.turns[k - 1];
          }
        } else {
          var stopped := LoopOutcome(turn.stop.value, [], [], []);
          ContextsExtend(turn.stop.value, Context(history, now), SystemMessage(now), history, turn.added, stopped);
          assert turn.added + [] == turn.added;
          assert [Context(history, now)] + [] == [Context(history, now)];
          assert [turn.added] + [] == [turn.added];
        }
      }
    }

    /** When the response asks for tools and no registered tool throws, the
        iteration runs every tool and goes on. */
    lemma TurnRunsTools(history: seq<Message>, now: Instant)
      requires tools != []
      requires llm.completeWithTools(Context(history, now)).Success?
      requires HasToolUse(llm.completeWithTools(Context(history, now)).value)
      requires forall n, x :: n in toolMap ==> toolMap[n].execute(x).Returned?
      ensures Turn(history, now).stop.None?
    {
      var response := llm.completeWithTools(Context(history, now)).value;
      var blocks := GetToolUseBlocks(response);
      var run := RunTools(blocks, toolMap, now);
      if run.failure.Some? {
        assert false;
      }
    }

    /** If every response asks for tools and no tool throws, the loop ends
        with the fixed maximum-iterations text after the full number of
        calls. */
    lemma {:induction false} AlwaysToolUseReachesMax(iteration: nat, history: seq<Message>, now: Instant)
      requires iteration <= MAX_TOOL_ITERATIONS && tools != []
      requires forall ctx :: llm.completeWithTools(ctx).Success? && HasToolUse(llm.completeWithTools(ctx).value)
      requires forall n, x :: n in toolMap ==> toolMap[n].execute(x).Returned?
      ensures Loop(iteration, history, now).result == Success(MAX_ITERATIONS_TEXT)
      ensures |Loop(iteration, history, now).contexts| == MAX_TOOL_ITERATIONS - iteration
      decreases MAX_TOOL_ITERATIONS - iteration
    {
      if iteration < MAX_TOOL_ITERATIONS {
        TurnRunsTools(history, now);
        AlwaysToolUseReachesMax(iteration + 1, history + Turn(history, now).added, now);
      }
    }

    /** With no tools, the loop makes exactly one plain complete call on the
        system message and the history, and returns its text unchanged. */
    lemma NoToolsSingleCall(history: seq<Message>, now: Instant)
      requires tools == [] && agent.Some?
      ensures AgentLoop(history, now) ==
        LoopOutcome(llm.complete([SystemMessage(now)] + history), [], [[SystemMessage(now)] + history], [[]])
    {
    }

    /** RunAgentLoop's invariant: the whole loop's outcome is what the
        iterations so far did followed by what the remaining ones do. */
    ghost predicate Resumes(whole: LoopOutcome, added: seq<Message>, rest: LoopOutcome)
    {
      whole.result == rest.result && whole.added == added + rest.added
    }

    lemma ResumeAtStart(whole: LoopOutcome)
      ensures Resumes(whole, [], whole)
    {
      assert [] + whole.added == whole.added;
    }

    lemma ResumeAfterTools(iteration: nat, history: seq<Message>, now: Instant,
                           whole: LoopOutcome, added: seq<Message>)
      requires iteration < MAX_TOOL_ITERATIONS && Turn(history, now).stop.None?
      requires Resumes(whole, added, Loop(iteration, history, now))
      ensures Resumes(whole, added + Turn(history, now).added, Loop(iteration + 1, history + Turn(history, now).added, now))
    {
      var turn := Turn(history, now);
      var rest := Loop(iteration + 1, history + turn.added, now);
      assert Loop(iteration, history, now) == Iteration(iteration, history, now);
      AppendAssociates(added, turn.added, rest.added);
    }

    lemma ResumeAtEnd(iteration: nat, history: seq<Message>, now: Instant,
                      whole: LoopOutcome, added: seq<Message>)
      requires iteration <= MAX_TOOL_ITERATIONS
      requires iteration < MAX_TOOL_ITERATIONS ==> Turn(history, now).stop.Some?
      requires Resumes(whole, added, Loop(iteration, history, now))
      ensures iteration == MAX_TOOL_ITERATIONS ==> whole.result == Success(MAX_ITERATIONS_TEXT) && whole.added == added
      ensures iteration < MAX_TOOL_ITERATIONS ==>
                whole.result == Turn(history, now).stop.value && whole.added == added + Turn(history, now).added
    {
      if iteration < MAX_TOOL_ITERATIONS {
        assert Loop(iteration, history, now) == Iteration(iteration, history, now);
      }
      assert added + [] == added;
    }

    /** runAgentLoop on the session's live message list. */
    method RunAgentLoop(session: Session, now: Instant) returns (r: Result<string, string>)
      modifies session`messages, session`lastActiveAt
      ensures var out := AgentLoop(old(session.messages), now);
              r == out.result && session.messages == old(session.messages) + out.added
      ensures session.lastActiveAt == old(session.lastActiveAt) || session.lastActiveAt == now
    {
      if agent.None? {
        return Failure(NO_AGENT_CONFIG);
      }
      ghost var start := session.messages;
      ghost var whole := Loop(0, start, now);
      ghost var added: seq<Message> := [];
      ResumeAtStart(whole);
      assert start + [] == start;
      for iteration := 0 to MAX_TOOL_ITERATIONS
        invariant session.messages == start + added
        invariant Resumes(whole, added, Loop(iteration, session.messages, now))
        invariant session.lastActiveAt == old(session.lastActiveAt) || session.lastActiveAt == now
      {
        var done, result;
        done, result, added := Advance(session, now, iteration, whole, start, added);
        if done {
          return result;
        }
      }
      assert Loop(MAX_TOOL_ITERATIONS, session.messages, now).added == [];
      assert added + [] == added;
      return Success(MAX_ITERATIONS_TEXT);
    }

    /** One iteration seen from the whole loop: either the loop's outcome
        is reached, or the rest of the loop resumes one iteration later. */
    method Advance(session: Session, now: Instant, iteration: nat, ghost whole: LoopOutcome,
                   ghost start: seq<Message>, ghost added: seq<Message>)
      returns (done: bool, result: Result<string, string>, ghost added': seq<Message>)
      requires iteration < MAX_TOOL_ITERATIONS
      requires session.messages == start + added
      requires Resumes(whole, added, Loop(iteration, session.messages, now))
      modifies session`messages, session`lastActiveAt
      ensures session.messages == start + added'
      ensures done ==> result == whole.result && added' == whole.added
      ensures !done ==> Resumes(whole, added', Loop(iteration + 1, session.messages, now))
      ensures session.lastActiveAt == old(session.lastActiveAt) || session.lastActiveAt == now
    {
      ghost var history := session.messages;
      done, result := Iterate(session, now);
      AppendAssociates(start, added, Turn(history, now).added);
      added' := added + Turn(history, now).added;
      if done {
        ResumeAtEnd(iteration, history, now, whole, added);
      } else {
        ResumeAfterTools(iteration, history, now, whole, added);
      }
    }

    /** One pass of the loop body: the loop ends (`done`) with `result`
        unless the model asked for tools and every tool returned. */
    method Iterate(session: Session, now: Instant) returns (done: bool, result: Result<string, string>)
      modifies session`messages, session`lastActiveAt
      ensures var turn := Turn(old(session.messages), now);
              && done == turn.stop.Some?
              && (done ==> result == turn.stop.value)
              && session.messages == old(session.messages) + turn.added
      ensures session.lastActiveAt == old(session.lastActiveAt) || session.lastActiveAt == now
    {
      ghost var history := session.messages;
      var context := [SystemMessage(now)] + session.messages;
      assert context == Context(history, now);
      if |tools| == 0 {
        var text := llm.complete(context);
        assert Turn(history, now) == TurnOutcome([], Some(text));
        assert session.messages == history + [];
        return true, text;
      }
      var response := llm.completeWithTools(context);
      if response.Failure? {
        assert Turn(history, now) == TurnOutcome([], Some(Failure(response.error)));
        assert session.messages == history + [];
        return true, Failure(response.error);
      }
      if !HasToolUse(response.value) {
        assert Turn(history, now) == TurnOutcome([], Some(Success(GetTextContent(response.value))));
        assert session.messages == history + [];
        return true, Success(GetTextContent(response.value));
      }
      var failure := RecordToolUse(session, response.value, now);
      ghost var added := ToolUseTurn(response.value, now);
      if failure.Some? {
        assert Turn(history, now) == TurnOutcome(added, Some(Failure(failure.value)));
        return true, Failure(failure.value);
      }
      assert Turn(history, now) == TurnOutcome(added, None);
      return false, Success(MAX_ITERATIONS_TEXT);
    }

    /** The messages one tool-use response adds when every tool returns or
        until one throws: the assistant_tool_use message, then the results. */
    function ToolUseTurn(response: LlmResponse, now: Instant): seq<Message>
    {
      [AssistantToolUseMessage(JArr(SerializedBlocks(response.content)), now)]
        + RunTools(GetToolUseBlocks(response), toolMap, now).messages
    }

    /** The tool-use branch of the loop body: the response's blocks are
        stored as an assistant_tool_use message and its tools are run. */
    method RecordToolUse(session: Session, response: LlmResponse, now: Instant) returns (failure: Option<string>)
      modifies session`messages, session`lastActiveAt
      ensures failure == RunTools(GetToolUseBlocks(response), toolMap, now).failure
      ensures session.messages == old(session.messages) + ToolUseTurn(response, now)
      ensures session.lastActiveAt == now
    {
      var contentBlocksJson := SerializeContentBlocks(response.content);
      var assistantToolMsg := AssistantToolUseMessage(contentBlocksJson, now);
      ghost var before := session.messages;
      session.AddMessage(assistantToolMsg, now);
      failure := RunToolBlocks(session, GetToolUseBlocks(response), now);
      AppendAssociates(before, [assistantToolMsg], RunTools(GetToolUseBlocks(response), toolMap, now).messages);
    }

    /** The inner loop: each tool_use block is looked up and executed, and
        its result added to the session, until a tool throws. */
    method RunToolBlocks(session: Session, toolBlocks: seq<ContentBlock>, now: Instant) returns (failure: Option<string>)
      modifies session`messages, session`lastActiveAt
      ensures var run := RunTools(toolBlocks, toolMap, now);
              failure == run.failure && session.messages == old(session.messages) + run.messages
      ensures session.lastActiveAt == old(session.lastActiveAt) || session.lastActiveAt == now
    {
      for j := 0 to |toolBlocks|
        invariant RunTools(toolBlocks[..j], toolMap, now).failure.None?
        invariant session.messages == old(session.messages) + RunTools(toolBlocks[..j], toolMap, now).messages
        invariant session.lastActiveAt == old(session.lastActiveAt) || session.lastActiveAt == now
      {
        var block := toolBlocks[j];
        assert toolBlocks[..j + 1][..j] == toolBlocks[..j];
        var result: ToolOutcome;
        if block.toolName.Some? && block.toolName.value in toolMap {
          result := toolMap[block.toolName.value].execute(block.toolInput);
        } else {
          result := Returned(Error("Unknown tool: " + NullText(block.toolName)));
        }
        if result.Threw? {
          RunToolsPrefixFailure(toolBlocks, j + 1, now);
          return Some(result.message);
        }
        var toolResultMsg := ToolResultMessage(block.toolUseId, result.result.output, result.result.isError, now);
        session.AddMessage(toolResultMsg, now);
      }
      assert toolBlocks[..|toolBlocks|] == toolBlocks;
      return None;
    }

    /** Once a prefix of the blocks stops at a throwing tool, so does the
        whole list, with the same messages and the same exception. */
    lemma {:induction false} RunToolsPrefixFailure(blocks: seq<ContentBlock>, j: nat, now: Instant)
      requires j <= |blocks| && RunTools(blocks[..j], toolMap, now).failure.Some?
      ensures RunTools(blocks, toolMap, now) == RunTools(blocks[..j], toolMap, now)
      decreases |blocks| - j
    {
      if j < |blocks| {
        assert blocks[..j + 1][..j] == blocks[..j];
        RunToolsPrefixFailure(blocks, j + 1, now);
      } else {
        assert blocks[..j] == blocks;
      }
    }

    /** execute: an unknown session id throws and changes nothing. Otherwise
        the user message is appended through the store, the loop runs on
        the session (its tool messages are added to the session only, not
        to the log), and the reply, an error turned into text, is appended
        through the store and returned. */
    method Execute(sessionId: string, userMessage: string, now: Instant) returns (r: Result<string, string>)
      requires store.Valid()
      modifies store, store.sessions.Values
      ensures store.Valid()
      ensures sessionId !in old(store.sessions) ==>
                && r == Failure("Session not found: " + sessionId)
                && store.sessions == old(store.sessions)
                && store.View() == old(store.View()) && store.appended == old(store.appended)
      ensures sessionId in old(store.sessions) ==>
                var before := old(store.View()[sessionId]);
                var user := NewMessage(ROLE_USER, Some(userMessage), now);
                var out := AgentLoop(before.messages + [user], now);
                var reply := NewMessage(ROLE_ASSISTANT, Some(ReplyText(out.result)), now);
                && r == Success(ReplyText(out.result))
                && store.sessions == old(store.sessions)
                && store.View() == old(store.View())[sessionId :=
                     before.(messages := before.messages + [user] + out.added + [reply], lastActiveAt := now)]
                && store.appended == old(store.appended)[LogFileName(sessionId) := old(store.AppendedLog(sessionId)) + [user, reply]]
    {
      var found := store.GetSession(sessionId);
      if found.None? {
        return Failure("Session not found: " + sessionId);
      }
      var text := ExecuteOnSession(sessionId, found.value, userMessage, now);
      return Success(text);
    }

    /** execute once the session is found: the user message, the loop, and
        the assistant reply, in that order. */
    method ExecuteOnSession(sessionId: string, session: Session, userMessage: string, now: Instant) returns (text: string)
      requires store.Valid() && sessionId in store.sessions && store.sessions[sessionId] == session
      modifies store, store.sessions.Values
      ensures store.Valid()
      ensures store.sessions == old(store.sessions)
      ensures var before := old(store.View()[sessionId]);
              var user := NewMessage(ROLE_USER, Some(userMessage), now);
              var out := AgentLoop(before.messages + [user], now);
              text == ReplyText(out.result)
      ensures var before := old(store.View()[sessionId]);
              var user := NewMessage(ROLE_USER, Some(userMessage), now);
              var out := AgentLoop(before.messages + [user], now);
              var reply := NewMessage(ROLE_ASSISTANT, Some(ReplyText(out.result)), now);
              store.View() == old(store.View())[sessionId :=
                   before.(messages := before.messages + [user] + out.added + [reply], lastActiveAt := now)]
      ensures var before := old(store.View()[sessionId]);
              var user := NewMessage(ROLE_USER, Some(userMessage), now);
              var out := AgentLoop(before.messages + [user], now);
              var reply := NewMessage(ROLE_ASSISTANT, Some(ReplyText(out.result)), now);
              store.appended == old(store.appended)[LogFileName(sessionId) := old(store.AppendedLog(sessionId)) + [user, reply]]
    {
      var userMsg := NewMessage(ROLE_USER, Some(userMessage), now);
      ghost var view0 := store.View();
      ghost var log0 := store.AppendedLog(sessionId);
      ghost var appended0 := store.appended;
      ghost var history := view0[sessionId].messages + [userMsg];
      var loopResult := UserTurn(sessionId, session, userMsg, now);
      ghost var view1 := store.View();
      ghost var appended1 := store.appended;
      text := ReplyText(loopResult);
      var assistantMsg := NewMessage(ROLE_ASSISTANT, Some(text), now);
      store.AppendMessage(sessionId, assistantMsg, now);
      ghost var out := AgentLoop(history, now);
      TurnThenReply(view0, view1, store.View(), sessionId, userMsg, out.added, assistantMsg, now);
      LogTurnThenReply(appended0, appended1, store.appended, LogFileName(sessionId), log0, userMsg, assistantMsg);
    }

    /** The user message goes to the session and its log, then the loop runs
        on the session. */
    method UserTurn(sessionId: string, session: Session, userMsg: Message, now: Instant) returns (r: Result<string, string>)
      requires store.Valid() && sessionId in store.sessions && store.sessions[sessionId] == session
      modifies store, store.sessions.Values
      ensures store.Valid() && store.sessions == old(store.sessions)
      ensures var out := AgentLoop(old(store.View()[sessionId].messages) + [userMsg], now);
              && r == out.result
              && store.View() == old(store.View())[sessionId := old(store.View()[sessionId]).(
                   messages := old(store.View()[sessionId].messages) + [userMsg] + out.added, lastActiveAt := now)]
              && store.appended == old(store.appended)[LogFileName(sessionId) := old(store.AppendedLog(sessionId)) + [userMsg]]
    {
      ghost var view0 := store.View();
      store.AppendMessage(sessionId, userMsg, now);
      ghost var view1 := store.View();
      r := RunOnStoredSession(sessionId, session, now);
      OverrideTwice(view0, view1, store.View(), sessionId, store.View()[sessionId]);
    }

    /** The loop run on a session held by the store: only that session's
        entry in the store's view changes. */
    method RunOnStoredSession(id: string, session: Session, now: Instant) returns (r: Result<string, string>)
      requires store.Valid() && id in store.sessions && store.sessions[id] == session
      modifies session`messages, session`lastActiveAt
      ensures store.Valid()
      ensures var out := AgentLoop(old(session.messages), now);
              r == out.result && session.messages == old(session.messages) + out.added
      ensures session.lastActiveAt == old(session.lastActiveAt) || session.lastActiveAt == now
      ensures store.View() == old(store.View())[id := session.State()]
    {
      store.ViewSplit(id);
      ghost var others := store.OthersView(id);
      r := RunAgentLoop(session, now);
      assert store.OthersView(id) == others;
      store.ViewSplit(id);
    }

  }

}
