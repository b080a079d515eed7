/** The structured reply of the language model: a stop reason and an
    ordered list of text and tool-use blocks. */
module LlmResponses {
  import opened Common
  import opened JsonValues

  const KIND_TEXT: string := "text"
  const KIND_TOOL_USE: string := "tool_use"

  /** A content block; the private constructor is reached only through the
      two factories below, so `kind` is "text" or "tool_use". */
  datatype ContentBlock = ContentBlock(
    kind: string,
    text: Option<string>,
    toolUseId: Option<string>,
    toolName: Option<string>,
    toolInput: Option<Json>)

  /** ContentBlock.text(t): a text block with null tool fields. */
  function TextBlock(text: Option<string>): (b: ContentBlock)
    ensures b.kind == KIND_TEXT && b.text == text
    ensures b.toolUseId.None? && b.toolName.None? && b.toolInput.None?
  {
    ContentBlock(KIND_TEXT, text, None, None, None)
  }

  /** ContentBlock.toolUse(id, name, input): a tool-use block with null text. */
  function ToolUseBlock(id: Option<string>, name: Option<string>, input: Option<Json>): (b: ContentBlock)
    ensures b.kind == KIND_TOOL_USE && b.text.None?
    ensures b.toolUseId == id && b.toolName == name && b.toolInput == input
  {
    ContentBlock(KIND_TOOL_USE, None, id, name, input)
  }

  datatype LlmResponse = LlmResponse(stopReason: Option<string>, content: seq<ContentBlock>)

  /** hasToolUse: the stop reason alone decides, whatever the blocks are. */
  predicate HasToolUse(r: LlmResponse)
  {
    r.stopReason == Some(KIND_TOOL_USE)
  }

  /** A text block with non-null text contributes to getTextContent. */
  predicate IsTextWithContent(b: ContentBlock)
  {
    b.kind == KIND_TEXT && b.text.Some?
  }

  /** One step of getTextContent's loop over the accumulated text `acc`:
      a newline goes in only when something has been accumulated. */
  function AppendText(acc: string, b: ContentBlock): string
  {
    if IsTextWithContent(b) then (if |acc| > 0 then acc + "\n" else acc) + b.text.value else acc
  }

  /** getTextContent: the loop run over the blocks in order from "". */
  function TextContent(blocks: seq<ContentBlock>): string
  {
    if blocks == [] then "" else AppendText(TextContent(blocks[..|blocks| - 1]), blocks[|blocks| - 1])
  }

  /** getTextContent: the texts of the text blocks joined by newlines. */
  function GetTextContent(r: LlmResponse): (t: string)
    ensures t == Join("\n", DropLeadingEmpty(Texts(r.content)))
  {
    TextContentIsJoin(r.content);
    TextContent(r.content)
  }

  /** The texts of the non-null text blocks, in order. */
  function Texts(blocks: seq<ContentBlock>): (ts: seq<string>)
    ensures |ts| <= |blocks|
  {
    if blocks == [] then []
    else
      var init := Texts(blocks[..|blocks| - 1]);
      var b := blocks[|blocks| - 1];
      if IsTextWithContent(b) then init + [b.text.value] else init
  }

  /** The texts from the first non-empty one on. */
  function DropLeadingEmpty(ts: seq<string>): (r: seq<string>)
    ensures r == [] || r[0] != ""
    ensures |r| <= |ts| && r == ts[|ts| - |r|..]
    ensures forall i :: 0 <= i < |ts| - |r| ==> ts[i] == ""
  {
    if ts == [] then [] else if ts[0] == "" then DropLeadingEmpty(ts[1..]) else ts
  }

  lemma {:induction false} DropLeadingEmptySnoc(ts: seq<string>, t: string)
    ensures DropLeadingEmpty(ts + [t]) ==
      if DropLeadingEmpty(ts) != [] then DropLeadingEmpty(ts) + [t]
      else if t == "" then [] else [t]
  {
    if ts != [] {
      assert (ts + [t])[1..] == ts[1..] + [t];
      if ts[0] == "" {
        DropLeadingEmptySnoc(ts[1..], t);
      }
    }
  }

  /** getTextContent is the newline-join of the texts of the text blocks,
      leading empty texts contributing nothing (no newline is inserted
      while the accumulated text is still empty). */
  lemma {:induction false} TextContentIsJoin(blocks: seq<ContentBlock>)
    ensures TextContent(blocks) == Join("\n", DropLeadingEmpty(Texts(blocks)))
  {
    if blocks != [] {
      var init := blocks[..|blocks| - 1];
      var b := blocks[|blocks| - 1];
      TextContentIsJoin(init);
      var d := DropLeadingEmpty(Texts(init));
      if IsTextWithContent(b) {
        DropLeadingEmptySnoc(Texts(init), b.text.value);
        JoinSnoc("\n", d, b.text.value);
        assert d != [] ==> |Join("\n", d)| > 0 by {
          if d != [] {
            assert StartsWith(Join("\n", d), d[0]);
          }
        }
      }
    }
  }

  /** With no text block carrying text, getTextContent is "". */
  lemma TextContentWithoutText(blocks: seq<ContentBlock>)
    requires forall i :: 0 <= i < |blocks| ==> !IsTextWithContent(blocks[i])
    ensures TextContent(blocks) == ""
  {
    assert Texts(blocks) == [] by {
      TextsEmpty(blocks);
    }
    TextContentIsJoin(blocks);
  }

  lemma {:induction false} TextsEmpty(blocks: seq<ContentBlock>)
    requires forall i :: 0 <= i < |blocks| ==> !IsTextWithContent(blocks[i])
    ensures Texts(blocks) == []
  {
    if blocks != [] {
      TextsEmpty(blocks[..|blocks| - 1]);
    }
  }

  /** getToolUseBlocks: the blocks of kind "tool_use", in their order. */
  function ToolUseBlocks(blocks: seq<ContentBlock>): (r: seq<ContentBlock>)
    ensures |r| <= |blocks|
  {
    if blocks == [] then []
    else
      var rest := ToolUseBlocks(blocks[1..]);
      if blocks[0].kind == KIND_TOOL_USE then [blocks[0]] + rest else rest
  }

  /** The filter keeps exactly the tool_use blocks: every block it returns
      is a tool_use block of the input, and every tool_use block of the
      input is among those it returns. */
  lemma {:induction false} ToolUseBlocksMembers(blocks: seq<ContentBlock>)
    ensures forall i :: 0 <= i < |ToolUseBlocks(blocks)| ==> ToolUseBlocks(blocks)[i].kind == KIND_TOOL_USE
    ensures forall b :: b in blocks && b.kind == KIND_TOOL_USE ==> b in ToolUseBlocks(blocks)
    ensures forall b :: b in ToolUseBlocks(blocks) ==> b in blocks
  {
    if blocks != [] {
      ToolUseBlocksMembers(blocks[1..]);
      assert forall b :: b in blocks[1..] ==> b in blocks;
      assert forall b :: b in blocks ==> b == blocks[0] || b in blocks[1..];
    }
  }

  /** getToolUseBlocks: the tool_use blocks of the response, and only those. */
  function GetToolUseBlocks(r: LlmResponse): (bs: seq<ContentBlock>)
    ensures forall b :: b in bs <==> b in r.content && b.kind == KIND_TOOL_USE
  {
    ToolUseBlocksMembers(r.content);
    ToolUseBlocks(r.content)
  }

  /** The filter distributes over concatenation, so it keeps the order. */
  lemma {:induction false} ToolUseBlocksAppend(a: seq<ContentBlock>, b: seq<ContentBlock>)
    ensures ToolUseBlocks(a + b) == ToolUseBlocks(a) + ToolUseBlocks(b)
  {
    if a != [] {
      assert (a + b)[1..] == a[1..] + b;
      ToolUseBlocksAppend(a[1..], b);
    } else {
      assert a + b == b;
    }
  }
}
