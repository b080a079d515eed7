/** The Anthropic Messages API client: endpoint selection, translation of
    the session's messages into the request body, the retry loop, and
    parsing of the response. The HTTP client is an oracle of attempt
    outcomes. */
module AnthropicProviders {
  import opened Common
  import opened JsonValues
  import opened Messages
  import opened LlmResponses
  import opened ToolResults

  const DEFAULT_API_URL: string := "https://api.anthropic.com/v1/messages"
  const MAX_RETRY_DELAY_MS: int := 30_000
  const BEDROCK_VERSION: string := "bedrock-2023-05-31"
  const ANTHROPIC_HOST: string := "api.anthropic.com"
  const DEFAULT_STOP_REASON: string := "end_turn"
  const EXHAUSTED_RETRIES: string := "Exhausted retries"
  /** The message of the IllegalArgumentException Thread.sleep throws. */
  const NEGATIVE_SLEEP: string := "timeout value is negative"
  /** The message of the NullPointerException thrown when a field that is
      read with asText() is missing. */
  const MISSING_FIELD: string := "Cannot invoke \"com.fasterxml.jackson.databind.JsonNode.asText()\" because the return value of \"com.fasterxml.jackson.databind.JsonNode.get(String)\" is null"
  /** The message of the IllegalArgumentException readTree throws on a null body. */
  const NULL_BODY: string := "argument \"content\" is null"

  /** The agent settings the provider reads. */
  datatype ProviderConfig = ProviderConfig(
    apiKey: Option<string>,
    baseUrl: Option<string>,
    maxTokens: int,
    retryMaxAttempts: int,
    retryInitialDelayMs: int)

  /** The provider's final fields. */
  datatype Provider = Provider(config: ProviderConfig, baseUrl: Option<string>, bedrockMode: bool)

  /** replaceAll("/+$", ""): the string without its trailing slashes. */
  function StripTrailingSlashes(s: string): (r: string)
    ensures |r| <= |s| && r == s[..|r|]
    ensures r == [] || r[|r| - 1] != '/'
    ensures forall i :: |r| <= i < |s| ==> s[i] == '/'
  {
    if s != [] && s[|s| - 1] == '/' then StripTrailingSlashes(s[..|s| - 1]) else s
  }

  /** The constructor: the base URL loses its trailing slashes, and bedrock
      mode holds iff a non-empty base URL that does not name the Anthropic
      host was configured. */
  function NewProvider(config: ProviderConfig): (p: Provider)
    ensures p.config == config
    ensures p.bedrockMode <==>
      config.baseUrl.Some? && config.baseUrl.value != "" && !Contains(config.baseUrl.value, ANTHROPIC_HOST)
    ensures config.baseUrl.None? ==> p.baseUrl.None?
    ensures config.baseUrl.Some? ==> p.baseUrl == Some(StripTrailingSlashes(config.baseUrl.value))
    ensures p.bedrockMode ==> p.baseUrl.Some?
  {
    var raw := config.baseUrl;
    Provider(
      config,
      if raw.Some? then Some(StripTrailingSlashes(raw.value)) else None,
      raw.Some? && !IsEmpty(raw.value) && !Contains(raw.value, ANTHROPIC_HOST))
  }

  /** resolveUrl: the public endpoint, or the Bedrock invoke URL of the model. */
  function ResolveUrl(p: Provider, model: string): (url: string)
    ensures !p.bedrockMode ==> url == DEFAULT_API_URL
    ensures p.bedrockMode ==> url == NullText(p.baseUrl) + "/model/" + model + "/invoke"
  {
    if !p.bedrockMode then DEFAULT_API_URL else NullText(p.baseUrl) + "/model/" + model + "/invoke"
  }

  /** Appending a slash to the configured base URL changes neither the mode
      nor the endpoint. */
  lemma TrailingSlashIrrelevant(config: ProviderConfig, raw: string, model: string)
    requires config.baseUrl == Some(raw) && raw != ""
    ensures var p1 := NewProvider(config);
            var p2 := NewProvider(config.(baseUrl := Some(raw + "/")));
            p1.bedrockMode == p2.bedrockMode && ResolveUrl(p1, model) == ResolveUrl(p2, model)
  {
    var slashed := raw + "/";
    assert StripTrailingSlashes(slashed) == StripTrailingSlashes(raw) by {
      assert slashed[..|slashed| - 1] == raw;
    }
    assert Contains(slashed, ANTHROPIC_HOST) ==> Contains(raw, ANTHROPIC_HOST) by {
      if Contains(slashed, ANTHROPIC_HOST) {
        var i: nat :| i <= |slashed| && OccursAt(slashed, ANTHROPIC_HOST, i);
        if i + |ANTHROPIC_HOST| == |slashed| {
          assert false;
        }
        assert raw[i..i + |ANTHROPIC_HOST|] == slashed[i..i + |ANTHROPIC_HOST|];
        assert OccursAt(raw, ANTHROPIC_HOST, i);
      }
    }
    assert Contains(raw, ANTHROPIC_HOST) ==> Contains(slashed, ANTHROPIC_HOST) by {
      if Contains(raw, ANTHROPIC_HOST) {
        var i: nat :| i <= |raw| && OccursAt(raw, ANTHROPIC_HOST, i);
        assert slashed[i..i + |ANTHROPIC_HOST|] == raw[i..i + |ANTHROPIC_HOST|];
        assert OccursAt(slashed, ANTHROPIC_HOST, i);
      }
    }
  }

  // ---------------------------------------------------------------------
  // Translation of the message list into the request's "messages" array
  // ---------------------------------------------------------------------

  /** One element of the request's "messages" array. */
  datatype WireMessage =
    | UserToolResults(results: seq<Message>)          // role "user", one tool_result block per message
    | AssistantReplay(contentBlocks: Json)            // role "assistant", stored blocks verbatim
    | Plain(role: string, content: Option<string>)    // role and text content

  /** How many tool_result messages `ms` starts with. */
  function RunLength(ms: seq<Message>): (n: nat)
    ensures n <= |ms|
    ensures forall i :: 0 <= i < n ==> ms[i].role == ROLE_TOOL_RESULT
    ensures n < |ms| ==> ms[n].role != ROLE_TOOL_RESULT
  {
    if ms == [] || ms[0].role != ROLE_TOOL_RESULT then 0 else 1 + RunLength(ms[1..])
  }

  /** How a message that is neither a system message nor a tool result is
      sent: assistant_tool_use becomes an assistant message carrying its
      stored blocks (or its text when it has none); anything else keeps its
      role and content. */
  function PassThrough(m: Message): (w: WireMessage)
    ensures w.Plain? ==> w.role == (if m.role == ROLE_ASSISTANT_TOOL_USE then ROLE_ASSISTANT else m.role)
  {
    if m.role == ROLE_ASSISTANT_TOOL_USE then
      if m.contentBlocks.Some? then AssistantReplay(m.contentBlocks.value) else Plain(ROLE_ASSISTANT, m.content)
    else Plain(m.role, m.content)
  }

  /** The last message is a tool result, so the run it belongs to is open. */
  predicate OpenRun(ms: seq<Message>)
  {
    ms != [] && ms[|ms| - 1].role == ROLE_TOOL_RESULT
  }

  /** The reference translation, by runs: system messages are dropped, each
      maximal run of consecutive tool_result messages becomes one user
      message holding one block per result, and every other message is
      passed through. */
  function Wire(ms: seq<Message>): (w: seq<WireMessage>)
    ensures OpenRun(ms) ==> w != [] && w[|w| - 1].UserToolResults?
    decreases |ms|
  {
    if ms == [] then []
    else if ms[0].role == ROLE_SYSTEM then Wire(ms[1..])
    else if ms[0].role == ROLE_TOOL_RESULT then
      var n := RunLength(ms);
      [UserToolResults(ms[..n])] + Wire(ms[n..])
    else
      [PassThrough(ms[0])] + Wire(ms[1..])
  }

  /** No system or tool_result role reaches the wire as a plain message,
      and every user run holds at least one block. */
  lemma {:induction false} WireShape(ms: seq<Message>)
    ensures forall i :: 0 <= i < |Wire(ms)| && Wire(ms)[i].Plain? ==>
              Wire(ms)[i].role != ROLE_SYSTEM && Wire(ms)[i].role != ROLE_TOOL_RESULT
    ensures forall i :: 0 <= i < |Wire(ms)| && Wire(ms)[i].UserToolResults? ==> |Wire(ms)[i].results| > 0
    decreases |ms|
  {
    if ms == [] {
    } else if ms[0].role == ROLE_SYSTEM {
      WireShape(ms[1..]);
    } else if ms[0].role == ROLE_TOOL_RESULT {
      WireShape(ms[RunLength(ms)..]);
    } else {
      WireShape(ms[1..]);
    }
  }

  /** One more block at the end of the open run (the last wire message). */
  function ExtendLast(w: seq<WireMessage>, m: Message): seq<WireMessage>
    requires w != [] && w[|w| - 1].UserToolResults?
  {
    w[..|w| - 1] + [UserToolResults(w[|w| - 1].results + [m])]
  }

  lemma {:induction false} RunLengthAppend(ms: seq<Message>, m: Message)
    ensures RunLength(ms) < |ms| ==> RunLength(ms + [m]) == RunLength(ms)
    ensures RunLength(ms) == |ms| ==>
      RunLength(ms + [m]) == |ms| + (if m.role == ROLE_TOOL_RESULT then 1 else 0)
  {
    if ms != [] && ms[0].role == ROLE_TOOL_RESULT {
      assert (ms + [m])[1..] == ms[1..] + [m];
      RunLengthAppend(ms[1..], m);
    }
  }

  /** One step of the source's loop on the translated list `w`, where
      `open` says whether the last message was a tool result. */
  function WireStep(w: seq<WireMessage>, open: bool, m: Message): seq<WireMessage>
  {
    if m.role == ROLE_SYSTEM then w
    else if m.role == ROLE_TOOL_RESULT then
      if open && w != [] && w[|w| - 1].UserToolResults? then ExtendLast(w, m)
      else w + [UserToolResults([m])]
    else w + [PassThrough(m)]
  }

  /** A step after a leading wire message `x` is a step on the rest. */
  lemma WireStepCons(x: WireMessage, w: seq<WireMessage>, open: bool, m: Message)
    requires open ==> w != [] && w[|w| - 1].UserToolResults?
    ensures WireStep([x] + w, open, m) == [x] + WireStep(w, open, m)
  {
    if m.role == ROLE_TOOL_RESULT && open {
      assert ([x] + w)[..|w|] == [x] + w[..|w| - 1];
    }
  }

  /** The reference translation of a list with one more message at the end
      is what one more step of the source's loop produces. */
  lemma {:induction false} WireSnoc(ms: seq<Message>, m: Message)
    ensures Wire(ms + [m]) == WireStep(Wire(ms), OpenRun(ms), m)
    decreases |ms|, 2
  {
    if ms == [] {
      assert ms + [m] == [m];
      WireSnocSingle(m);
    } else if ms[0].role == ROLE_TOOL_RESULT {
      WireSnocRun(ms, m);
    } else {
      assert (ms + [m])[1..] == ms[1..] + [m];
      WireSnoc(ms[1..], m);
      assert OpenRun(ms[1..]) == OpenRun(ms);
      if ms[0].role != ROLE_SYSTEM {
        WireStepCons(PassThrough(ms[0]), Wire(ms[1..]), OpenRun(ms), m);
      }
    }
  }

  lemma WireSnocSingle(m: Message)
    ensures Wire([m]) == WireStep([], false, m)
  {
    assert [m][1..] == [];
    if m.role == ROLE_TOOL_RESULT {
      assert RunLength([m]) == 1;
      assert [m][..1] == [m];
    }
  }

  lemma {:induction false} WireSnocRun(ms: seq<Message>, m: Message)
    requires ms != [] && ms[0].role == ROLE_TOOL_RESULT
    ensures Wire(ms + [m]) == WireStep(Wire(ms), OpenRun(ms), m)
    decreases |ms|, 1
  {
    RunLengthAppend(ms, m);
    if RunLength(ms) < |ms| {
      WireSnocRunThen(ms, m);
    } else {
      var n := |ms|;
      assert ms[..n] == ms && ms[n..] == [];
      if m.role == ROLE_TOOL_RESULT {
        assert (ms + [m])[..n + 1] == ms + [m] && (ms + [m])[n + 1..] == [];
      } else {
        assert (ms + [m])[..n] == ms && (ms + [m])[n..] == [m];
        assert [m][1..] == [];
      }
    }
  }

  /** The step for a list whose leading run is followed by more messages:
      the leading user message is untouched. */
  lemma {:induction false} WireSnocRunThen(ms: seq<Message>, m: Message)
    requires ms != [] && ms[0].role == ROLE_TOOL_RESULT && RunLength(ms) < |ms|
    ensures Wire(ms + [m]) == WireStep(Wire(ms), OpenRun(ms), m)
    decreases |ms|, 0
  {
    var n := RunLength(ms);
    RunLengthAppend(ms, m);
    var head := UserToolResults(ms[..n]);
    assert (ms + [m])[..n] == ms[..n];
    assert (ms + [m])[n..] == ms[n..] + [m];
    WireSnoc(ms[n..], m);
    assert OpenRun(ms[n..]) == OpenRun(ms);
    WireStepCons(head, Wire(ms[n..]), OpenRun(ms), m);
  }

  /** The position of the last system message. */
  function LastSystemIndex(ms: seq<Message>): (r: Option<nat>)
    ensures r.Some? ==> r.value < |ms| && ms[r.value].role == ROLE_SYSTEM
    ensures r.Some? ==> forall j :: r.value < j < |ms| ==> ms[j].role != ROLE_SYSTEM
    ensures r.None? ==> forall j :: 0 <= j < |ms| ==> ms[j].role != ROLE_SYSTEM
  {
    if ms == [] then None
    else if ms[|ms| - 1].role == ROLE_SYSTEM then Some(|ms| - 1)
    else
      var r := LastSystemIndex(ms[..|ms| - 1]);
      assert forall j :: 0 <= j < |ms| - 1 ==> ms[..|ms| - 1][j] == ms[j];
      r
  }

  /** The value systemPrompt ends with: the content of the last system
      message (Java null when that message has none or there is none). */
  function LastSystemContent(ms: seq<Message>): Option<string>
  {
    match LastSystemIndex(ms)
    case None => None
    case Some(i) => ms[i].content
  }

  lemma LastSystemContentSnoc(ms: seq<Message>, m: Message)
    ensures LastSystemContent(ms + [m]) == if m.role == ROLE_SYSTEM then m.content else LastSystemContent(ms)
  {
    assert (ms + [m])[..|ms|] == ms;
  }

  /** The translation loop of completeWithTools, with `open` standing for the
      cursor lastToolResultContentArray being non-null. */
  method TranslateMessages(messages: seq<Message>) returns (wire: seq<WireMessage>, systemPrompt: Option<string>)
    ensures wire == Wire(messages)
    ensures systemPrompt == LastSystemContent(messages)
  {
    wire := [];
    systemPrompt := None;
    var open := false;
    for i := 0 to |messages|
      invariant wire == Wire(messages[..i])
      invariant open == OpenRun(messages[..i])
      invariant systemPrompt == LastSystemContent(messages[..i])
    {
      var msg := messages[i];
      assert messages[..i + 1] == messages[..i] + [msg];
      assert messages[..i + 1][..i] == messages[..i];
      WireSnoc(messages[..i], msg);
      LastSystemContentSnoc(messages[..i], msg);
      if msg.role == ROLE_SYSTEM {
        systemPrompt := msg.content;
        open := false;
      } else if msg.role == ROLE_TOOL_RESULT {
        if open {
          wire := wire[..|wire| - 1] + [UserToolResults(wire[|wire| - 1].results + [msg])];
        } else {
          wire := wire + [UserToolResults([msg])];
          open := true;
        }
      } else if msg.role == ROLE_ASSISTANT_TOOL_USE {
        if msg.contentBlocks.Some? {
          wire := wire + [AssistantReplay(msg.contentBlocks.value)];
        } else {
          wire := wire + [Plain(ROLE_ASSISTANT, msg.content)];
        }
        open := false;
      } else {
        wire := wire + [Plain(msg.role, msg.content)];
        open := false;
      }
    }
    assert messages[..|messages|] == messages;
  }

  /** The tool results a translated list carries, run after run, in order. */
  function AllResults(w: seq<WireMessage>): seq<Message>
  {
    if w == [] then []
    else AllResults(w[..|w| - 1]) + (if w[|w| - 1].UserToolResults? then w[|w| - 1].results else [])
  }

  /** The tool_result messages of a list, in order. */
  function ToolResultMessages(ms: seq<Message>): seq<Message>
  {
    if ms == [] then []
    else ToolResultMessages(ms[..|ms| - 1]) + (if ms[|ms| - 1].role == ROLE_TOOL_RESULT then [ms[|ms| - 1]] else [])
  }

  lemma AllResultsSnoc(w: seq<WireMessage>, x: WireMessage)
    ensures AllResults(w + [x]) == AllResults(w) + (if x.UserToolResults? then x.results else [])
  {
    assert (w + [x])[..|w|] == w;
  }

  lemma AllResultsExtend(w: seq<WireMessage>, m: Message)
    requires w != [] && w[|w| - 1].UserToolResults?
    ensures AllResults(ExtendLast(w, m)) == AllResults(w) + [m]
  {
    var init := w[..|w| - 1];
    var last := w[|w| - 1];
    assert AllResults(w) == AllResults(init) + last.results;
    AllResultsSnoc(init, UserToolResults(last.results + [m]));
    AppendAssociates(AllResults(init), last.results, [m]);
  }

  lemma ToolResultMessagesSnoc(ms: seq<Message>, m: Message)
    ensures ToolResultMessages(ms + [m]) == ToolResultMessages(ms) + (if m.role == ROLE_TOOL_RESULT then [m] else [])
  {
    assert (ms + [m])[..|ms|] == ms;
  }

  /** No tool result is lost, duplicated or reordered: the runs of the
      translated list, read in order, hold exactly the tool_result messages. */
  lemma {:induction false} WireKeepsToolResults(ms: seq<Message>)
    ensures AllResults(Wire(ms)) == ToolResultMessages(ms)
  {
    if ms != [] {
      var init := ms[..|ms| - 1];
      var m := ms[|ms| - 1];
      assert ms == init + [m];
      WireKeepsToolResults(init);
      WireSnoc(init, m);
      ToolResultMessagesSnoc(init, m);
      var w := Wire(init);
      if m.role == ROLE_TOOL_RESULT {
        if OpenRun(init) {
          AllResultsExtend(w, m);
        } else {
          AllResultsSnoc(w, UserToolResults([m]));
        }
      } else if m.role != ROLE_SYSTEM {
        AllResultsSnoc(w, PassThrough(m));
        assert ToolResultMessages(ms) == ToolResultMessages(init) + [];
      }
    }
  }

  // ---------------------------------------------------------------------
  // The request body
  // ---------------------------------------------------------------------

  /** A tool_result block as JSON: "is_error" is present only when flagged. */
  function ToolResultBlockJson(m: Message): (j: Json)
    ensures j.JObj? && ("is_error" in j.fields <==> m.toolError)
    ensures Get(j, "type") == Some(JStr("tool_result"))
    ensures Get(j, "tool_use_id") == Some(TextOrNull(m.toolUseId))
    ensures Get(j, "content") == Some(TextOrNull(m.content))
  {
    var fields := map["type" := JStr("tool_result"), "tool_use_id" := TextOrNull(m.toolUseId),
                      "content" := TextOrNull(m.content)];
    JObj(if m.toolError then fields["is_error" := JBool(true)] else fields)
  }

  function WireMessageJson(w: WireMessage): Json
  {
    match w
    case UserToolResults(results) =>
      JObj(map["role" := JStr(ROLE_USER),
               "content" := JArr(seq(|results|, i requires 0 <= i < |results| => ToolResultBlockJson(results[i])))])
    case AssistantReplay(contentBlocks) =>
      JObj(map["role" := JStr(ROLE_ASSISTANT), "content" := contentBlocks])
    case Plain(role, content) =>
      JObj(map["role" := JStr(role), "content" := TextOrNull(content)])
  }

  /** One entry of the "tools" array. */
  function ToolJson(t: Tool): Json
  {
    JObj(map["name" := JStr(t.name), "description" := JStr(t.description), "input_schema" := t.inputSchema])
  }

  /** The request body of completeWithTools. */
  function RequestBody(p: Provider, model: string, wire: seq<WireMessage>, system: Option<string>, tools: seq<Tool>): (j: Json)
    ensures j.JObj?
    ensures ("anthropic_version" in j.fields <==> p.bedrockMode) && ("model" in j.fields <==> !p.bedrockMode)
    ensures "system" in j.fields <==> system.Some?
    ensures system.Some? ==> j.fields["system"] == JStr(system.value)
    ensures "tools" in j.fields <==> |tools| > 0
    ensures |tools| > 0 ==>
              && j.fields["tools"].JArr? && |j.fields["tools"].items| == |tools|
              && forall i :: 0 <= i < |tools| ==> j.fields["tools"].items[i] == ToolJson(tools[i])
    ensures "max_tokens" in j.fields && j.fields["max_tokens"] == JNum(p.config.maxTokens)
    ensures "messages" in j.fields && j.fields["messages"].JArr? && |j.fields["messages"].items| == |wire|
    ensures forall i :: 0 <= i < |wire| ==> j.fields["messages"].items[i] == WireMessageJson(wire[i])
  {
    var base := map["max_tokens" := JNum(p.config.maxTokens),
                    "messages" := JArr(seq(|wire|, i requires 0 <= i < |wire| => WireMessageJson(wire[i])))];
    var versioned := if p.bedrockMode then base["anthropic_version" := JStr(BEDROCK_VERSION)] else base["model" := JStr(model)];
    var withSystem := if system.Some? then versioned["system" := JStr(system.value)] else versioned;
    var withTools := if |tools| > 0 then withSystem["tools" := JArr(seq(|tools|, i requires 0 <= i < |tools| => ToolJson(tools[i])))] else withSystem;
    JObj(withTools)
  }

  // ---------------------------------------------------------------------
  // The retry loop
  // ---------------------------------------------------------------------

  /** A response body as text, and what readTree makes of it. */
  datatype ResponseBody = ResponseBody(text: string, json: Result<Json, string>)

  /** What one HTTP attempt gives: a response, or an IOException. */
  datatype HttpOutcome = HttpResponse(code: int, body: Option<ResponseBody>) | IoFailure(message: string)

  /** Response.isSuccessful: a 2xx status. */
  predicate IsSuccessful(o: HttpOutcome)
  {
    o.HttpResponse? && 200 <= o.code <= 299
  }

  /** 429 Too Many Requests and every 5xx status are the retryable ones. */
  predicate Retryable(code: int)
  {
    code == 429 || code >= 500
  }

  /** The message of the exception a failed attempt raises. */
  function AttemptError(o: HttpOutcome): string
  {
    match o
    case IoFailure(message) => message
    case HttpResponse(code, body) =>
      "Anthropic API error: " + IntToString(code) + " - " + (if body.Some? then body.value.text else "No body")
  }

  const LONG_MODULUS: int := 0x1_0000_0000_0000_0000
  const LONG_MAX: int := 0x7FFF_FFFF_FFFF_FFFF

  /** Java long arithmetic wraps around. */
  function WrapLong(x: int): (r: int)
    ensures -LONG_MAX - 1 <= r <= LONG_MAX
    ensures -LONG_MAX - 1 <= x <= LONG_MAX ==> r == x
  {
    (x + LONG_MAX + 1) % LONG_MODULUS - LONG_MAX - 1
  }

  /** Math.min(delayMs * 2, MAX_RETRY_DELAY_MS) on longs. */
  function NextDelay(delay: int): int
  {
    var doubled := WrapLong(delay * 2);
    if doubled < MAX_RETRY_DELAY_MS then doubled else MAX_RETRY_DELAY_MS
  }

  /** The delay before attempt k + 2, i.e. after the (k+1)-th failure. */
  function DelayAt(initial: int, k: nat): int
  {
    if k == 0 then initial else NextDelay(DelayAt(initial, k - 1))
  }

  function Pow2(k: nat): (r: nat)
    ensures r >= 1
  {
    if k == 0 then 1 else 2 * Pow2(k - 1)
  }

  lemma DoubleProduct(a: int, b: int)
    ensures a * (2 * b) == 2 * (a * b)
  {
  }

  /** Exponential backoff capped at 30 s: the k-th delay after the initial
      one is min(initial * 2^k, 30000). */
  lemma {:induction false} DelaySchedule(initial: int, k: nat)
    requires 0 <= initial <= LONG_MAX / 2
    ensures k > 0 ==> DelayAt(initial, k) == if initial * Pow2(k) < MAX_RETRY_DELAY_MS then initial * Pow2(k) else MAX_RETRY_DELAY_MS
    ensures 0 <= DelayAt(initial, k)
    ensures k > 0 ==> DelayAt(initial, k) <= MAX_RETRY_DELAY_MS
  {
    if k > 0 {
      DelaySchedule(initial, k - 1);
      var prev := DelayAt(initial, k - 1);
      DoubleProduct(initial, Pow2(k - 1));
      assert 0 <= prev * 2 <= LONG_MAX;
      assert WrapLong(prev * 2) == prev * 2;
    }
  }

  /** What executeWithRetry does: its result, the sleeps it made, and the
      number of attempts it sent. */
  datatype RetryRun = RetryRun(result: Result<Option<ResponseBody>, string>, sleeps: seq<int>, calls: nat)

  /** The attempts from `attempt` on, with `delay` as the next sleep. */
  function RetryFrom(attempt: nat, maxAttempts: int, delay: int, send: nat -> HttpOutcome): RetryRun
    requires attempt >= 1
    decreases if maxAttempts < attempt then 0 else maxAttempts - attempt + 1
  {
    if attempt > maxAttempts then RetryRun(Failure(EXHAUSTED_RETRIES), [], attempt - 1)
    else
      var o := send(attempt);
      if IsSuccessful(o) then RetryRun(Success(o.body), [], attempt)
      else if attempt == maxAttempts then RetryRun(Failure(AttemptError(o)), [], attempt)
      else if delay < 0 then RetryRun(Failure(NEGATIVE_SLEEP), [], attempt)
      else
        var rest := RetryFrom(attempt + 1, maxAttempts, NextDelay(delay), send);
        rest.(sleeps := [delay] + rest.sleeps)
  }

  function Retry(maxAttempts: int, initialDelay: int, send: nat -> HttpOutcome): RetryRun
  {
    RetryFrom(1, maxAttempts, initialDelay, send)
  }

  lemma {:induction false} RetryFromFacts(attempt: nat, maxAttempts: int, delay: int, initial: int, send: nat -> HttpOutcome)
    requires attempt >= 1 && delay == DelayAt(initial, attempt - 1)
    ensures var run := RetryFrom(attempt, maxAttempts, delay, send);
            && run.calls >= attempt - 1
            && (attempt <= maxAttempts ==> attempt <= run.calls <= maxAttempts)
            && (attempt > maxAttempts ==> run.calls == attempt - 1)
            && |run.sleeps| == (if run.calls >= attempt then run.calls - attempt else 0)
            && (forall k :: 0 <= k < |run.sleeps| ==> run.sleeps[k] == DelayAt(initial, attempt - 1 + k))
            && (forall k :: attempt <= k < run.calls ==> !IsSuccessful(send(k)))
            && (run.result.Success? ==> run.calls >= attempt && IsSuccessful(send(run.calls)) && run.result.value == send(run.calls).body)
    decreases if maxAttempts < attempt then 0 else maxAttempts - attempt + 1
  {
    if attempt <= maxAttempts && !IsSuccessful(send(attempt)) && attempt != maxAttempts && delay >= 0 {
      RetryFromFacts(attempt + 1, maxAttempts, NextDelay(delay), initial, send);
    }
  }

  /** At most maxAttempts attempts are sent (none when it is not positive,
      and then "Exhausted retries" is raised); the sleeps between them follow
      the backoff schedule; a success returns the first successful body, and
      every earlier attempt failed. */
  lemma RetryBounds(maxAttempts: int, initial: int, send: nat -> HttpOutcome)
    ensures var run := Retry(maxAttempts, initial, send);
            && run.calls <= (if maxAttempts < 0 then 0 else maxAttempts)
            && (maxAttempts <= 0 ==> run.calls == 0 && run.result == Failure(EXHAUSTED_RETRIES))
            && (run.calls > 0 ==> |run.sleeps| == run.calls - 1)
            && (forall k :: 0 <= k < |run.sleeps| ==> run.sleeps[k] == DelayAt(initial, k))
            && (forall k :: 1 <= k < run.calls ==> !IsSuccessful(send(k)))
            && (run.result.Success? ==> IsSuccessful(send(run.calls)) && run.result.value == send(run.calls).body)
  {
    RetryFromFacts(1, maxAttempts, initial, initial, send);
  }

  /** With non-negative delays, a run that fails after at least one attempt
      has sent all maxAttempts attempts and raises the last one's error. */
  lemma {:induction false} RetryFailsOnlyAtLastAttempt(attempt: nat, maxAttempts: int, initial: int, send: nat -> HttpOutcome)
    requires 0 <= initial <= LONG_MAX / 2
    requires 1 <= attempt <= maxAttempts
    ensures var run := RetryFrom(attempt, maxAttempts, DelayAt(initial, attempt - 1), send);
            run.result.Failure? ==> run.calls == maxAttempts && run.result.error == AttemptError(send(maxAttempts))
    decreases maxAttempts - attempt
  {
    DelaySchedule(initial, attempt - 1);
    if attempt < maxAttempts && !IsSuccessful(send(attempt)) {
      RetryFailsOnlyAtLastAttempt(attempt + 1, maxAttempts, initial, send);
    }
  }

  /** The source's retry quirk: a non-retryable status (a 400, say) on an
      attempt before the last is retried like any other failure, because the
      IOException raised for it is caught by the handler for I/O errors. */
  lemma NonRetryableStatusIsRetried(maxAttempts: int, initial: int, send: nat -> HttpOutcome)
    requires maxAttempts >= 2 && initial >= 0
    requires send(1).HttpResponse? && !IsSuccessful(send(1)) && !Retryable(send(1).code)
    ensures Retry(maxAttempts, initial, send).calls >= 2
    ensures Retry(maxAttempts, initial, send).sleeps[0] == initial
  {
    RetryFromFacts(2, maxAttempts, NextDelay(initial), initial, send);
  }

  /** executeWithRetry, with the sleeps recorded instead of made. */
  method ExecuteWithRetry(maxAttempts: int, initialDelayMs: int, send: nat -> HttpOutcome)
    returns (result: Result<Option<ResponseBody>, string>, sleeps: seq<int>, calls: nat)
    ensures RetryRun(result, sleeps, calls) == Retry(maxAttempts, initialDelayMs, send)
  {
    var delayMs := initialDelayMs;
    sleeps := [];
    var attempt: nat := 1;
    while attempt <= maxAttempts
      invariant attempt >= 1
      invariant var rest := RetryFrom(attempt, maxAttempts, delayMs, send);
                Retry(maxAttempts, initialDelayMs, send) == rest.(sleeps := sleeps + rest.sleeps)
      decreases maxAttempts - attempt + 1
    {
      var response := send(attempt);
      var thrown: Option<string> := None;
      if response.HttpResponse? {
        if 200 <= response.code <= 299 {
          return Success(response.body), sleeps, attempt;
        }
        var code := response.code;
        var retryable := code == 429 || code >= 500;
        if !retryable || attempt == maxAttempts {
          thrown := Some(AttemptError(response));
        }
      } else {
        thrown := Some(response.message);
      }
      if thrown.Some? && attempt == maxAttempts {
        return Failure(thrown.value), sleeps, attempt;
      }
      if delayMs < 0 {
        return Failure(NEGATIVE_SLEEP), sleeps, attempt;
      }
      ghost var rest := RetryFrom(attempt + 1, maxAttempts, NextDelay(delayMs), send);
      assert sleeps + ([delayMs] + rest.sleeps) == (sleeps + [delayMs]) + rest.sleeps;
      sleeps := sleeps + [delayMs];
      delayMs := NextDelay(delayMs);
      attempt := attempt + 1;
    }
    assert sleeps + [] == sleeps;
    return Failure(EXHAUSTED_RETRIES), sleeps, attempt - 1;
  }

  // ---------------------------------------------------------------------
  // Response parsing
  // ---------------------------------------------------------------------

  /** A block as parseResponse produces it: text blocks carry text, and
      tool-use blocks carry an id and a name. */
  predicate ParsedShape(b: ContentBlock)
  {
    (b.kind == KIND_TEXT && b.text.Some? && b.toolUseId.None? && b.toolName.None? && b.toolInput.None?)
    || (b.kind == KIND_TOOL_USE && b.text.None? && b.toolUseId.Some? && b.toolName.Some?)
  }

  /** An item of the "content" array that parseResponse turns into a block:
      its "type" reads as text or tool_use. */
  predicate KeptItem(item: Json)
  {
    Has(item, "type") && (AsText(item.fields["type"]) == KIND_TEXT || AsText(item.fields["type"]) == KIND_TOOL_USE)
  }

  /** An item on which parseResponse dereferences a missing field: it has no
      "type", or it is a text item without "text", or a tool_use item
      without "id" or "name". */
  predicate MissingField(item: Json)
  {
    || !Has(item, "type")
    || (AsText(item.fields["type"]) == KIND_TEXT && !Has(item, "text"))
    || (AsText(item.fields["type"]) == KIND_TOOL_USE && (!Has(item, "id") || !Has(item, "name")))
  }

  /** The block parseResponse builds from a kept, complete item. */
  function BlockOf(item: Json): ContentBlock
    requires KeptItem(item) && !MissingField(item)
  {
    if AsText(item.fields["type"]) == KIND_TEXT then TextBlock(Some(AsText(item.fields["text"])))
    else ToolUseBlock(Some(AsText(item.fields["id"])), Some(AsText(item.fields["name"])), Get(item, "input"))
  }

  /** The kept items of a "content" array, in array order. */
  function KeptItems(items: seq<Json>): (r: seq<Json>)
    ensures |r| <= |items|
    ensures forall i :: 0 <= i < |r| ==> KeptItem(r[i]) && r[i] in items
  {
    if items == [] then []
    else if KeptItem(items[0]) then [items[0]] + KeptItems(items[1..])
    else KeptItems(items[1..])
  }

  /** The loop over the "content" array: text and tool_use blocks are kept in
      order, other types are dropped, and a block without "type" (or a text
      block without "text", a tool_use block without "id" or "name") throws. */
  function ParseBlocks(items: seq<Json>): (r: Result<seq<ContentBlock>, string>)
    ensures r.Failure? ==> r.error == MISSING_FIELD
    ensures r.Success? ==> |r.value| <= |items| && forall i :: 0 <= i < |r.value| ==> ParsedShape(r.value[i])
  {
    if items == [] then Success([])
    else
      var item := items[0];
      match Get(item, "type")
      case None => Failure(MISSING_FIELD)
      case Some(t) =>
        var kind := AsText(t);
        if kind == KIND_TEXT then
          match Get(item, "text")
          case None => Failure(MISSING_FIELD)
          case Some(text) =>
            match ParseBlocks(items[1..])
            case Failure(e) => Failure(e)
            case Success(rest) => Success([TextBlock(Some(AsText(text)))] + rest)
        else if kind == KIND_TOOL_USE then
          match (Get(item, "id"), Get(item, "name"))
          case (Some(id), Some(name)) =>
            (match ParseBlocks(items[1..])
             case Failure(e) => Failure(e)
             case Success(rest) => Success([ToolUseBlock(Some(AsText(id)), Some(AsText(name)), Get(item, "input"))] + rest))
          case _ => Failure(MISSING_FIELD)
        else ParseBlocks(items[1..])
  }

  /** Parsing fails exactly when some item misses a field it needs, and
      otherwise yields one block per kept item, in order, built from it. */
  lemma {:induction false} ParseBlocksKeptItems(items: seq<Json>)
    ensures ParseBlocks(items).Failure? <==> exists i :: 0 <= i < |items| && MissingField(items[i])
    ensures ParseBlocks(items).Success? ==>
              && |ParseBlocks(items).value| == |KeptItems(items)|
              && forall i :: 0 <= i < |KeptItems(items)| ==>
                   !MissingField(KeptItems(items)[i]) && ParseBlocks(items).value[i] == BlockOf(KeptItems(items)[i])
  {
    if items != [] {
      var item, rest := items[0], items[1..];
      ParseBlocksKeptItems(rest);
      assert forall i :: 0 <= i < |rest| ==> rest[i] == items[i + 1];
      if MissingField(item) {
        assert ParseBlocks(items).Failure?;
      } else if (exists i :: 0 <= i < |rest| && MissingField(rest[i])) {
        var i :| 0 <= i < |rest| && MissingField(rest[i]);
        assert MissingField(items[i + 1]);
      } else {
        assert forall i :: 0 <= i < |items| ==> !MissingField(items[i]) by {
          forall i | 0 <= i < |items|
            ensures !MissingField(items[i])
          {
            if i > 0 {
              assert items[i] == rest[i - 1];
            }
          }
        }
        var tail := ParseBlocks(rest).value;
        if KeptItem(item) {
          assert KeptItems(items) == [item] + KeptItems(rest);
          assert ParseBlocks(items).value == [BlockOf(item)] + tail;
        } else {
          assert KeptItems(items) == KeptItems(rest);
        }
      }
    }
  }

  /** parseResponse: stop_reason (default "end_turn") and the content blocks. */
  function ParseResponse(j: Json): (r: Result<LlmResponse, string>)
    ensures r.Success? ==> r.value.stopReason == Some(if Has(j, "stop_reason") then AsText(j.fields["stop_reason"]) else DEFAULT_STOP_REASON)
    ensures r.Success? ==> forall i :: 0 <= i < |r.value.content| ==> ParsedShape(r.value.content[i])
    ensures Get(j, "content").None? || !Get(j, "content").value.JArr? ==> r.Success? && r.value.content == []
  {
    var stopReason := if Has(j, "stop_reason") then AsText(j.fields["stop_reason"]) else DEFAULT_STOP_REASON;
    match Get(j, "content")
    case Some(JArr(items)) =>
      (match ParseBlocks(items)
       case Failure(e) => Failure(e)
       case Success(blocks) => Success(LlmResponse(Some(stopReason), blocks)))
    case _ => Success(LlmResponse(Some(stopReason), []))
  }

  /** What completeWithTools makes of the retry loop's result. */
  function ResponseOf(result: Result<Option<ResponseBody>, string>): Result<LlmResponse, string>
  {
    match result
    case Failure(e) => Failure(e)
    case Success(None) => Failure(NULL_BODY)
    case Success(Some(body)) =>
      match body.json
      case Failure(e) => Failure(e)
      case Success(j) => ParseResponse(j)
  }

  /** completeWithTools: the request sent on every attempt, and the response
      read from the first successful one. */
  method CompleteWithTools(p: Provider, messages: seq<Message>, model: string, tools: seq<Tool>, send: nat -> HttpOutcome)
    returns (r: Result<LlmResponse, string>, url: string, request: Json)
    ensures url == ResolveUrl(p, model)
    ensures request == RequestBody(p, model, Wire(messages), LastSystemContent(messages), tools)
    ensures r == ResponseOf(Retry(p.config.retryMaxAttempts, p.config.retryInitialDelayMs, send).result)
  {
    var wire, systemPrompt := TranslateMessages(messages);
    request := RequestBody(p, model, wire, systemPrompt, tools);
    url := ResolveUrl(p, model);
    var result, sleeps, calls := ExecuteWithRetry(p.config.retryMaxAttempts, p.config.retryInitialDelayMs, send);
    r := ResponseOf(result);
  }

  /** complete: completeWithTools with no tools, reduced to its text. */
  method Complete(p: Provider, messages: seq<Message>, model: string, send: nat -> HttpOutcome)
    returns (r: Result<string, string>, request: Json)
    ensures request.JObj? && "tools" !in request.fields
    ensures request == RequestBody(p, model, Wire(messages), LastSystemContent(messages), [])
    ensures var response := ResponseOf(Retry(p.config.retryMaxAttempts, p.config.retryInitialDelayMs, send).result);
            r == if response.Success? then Success(GetTextContent(response.value)) else Failure(response.error)
  {
    var response, url;
    response, url, request := CompleteWithTools(p, messages, model, [], send);
    if response.Failure? {
      return Failure(response.error), request;
    }
    r := Success(GetTextContent(response.value));
  }
}
