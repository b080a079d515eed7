/** The file_read tool: a file's text, or a directory's listing, for a path
    confined to the workspace. */
module FileRead {
  import opened Common
  import opened JsonValues
  import opened ToolResults
  import Utf8
  import opened Workspace
  import CodeExecution

  const MAX_OUTPUT_CHARS: nat := 8192

  /** A file of more bytes than this is shown only in part. */
  const WHOLE_FILE_BYTES: nat := MAX_OUTPUT_CHARS * 2

  /** The error for a path that resolves outside the workspace. */
  function AccessDenied(root: seq<string>): string
  {
    "Access denied: path is outside the workspace (" + Render(root) + ")"
  }

  /** The first line of a directory listing. */
  function ListingHeader(dir: seq<string>): string
  {
    "Directory listing for: " + Render(dir) + "\n"
  }

  /** One entry of a listing: its kind, then its name, on a line of its own. */
  function EntryLine(nodes: map<seq<string>, Node>, dir: seq<string>, name: string): (line: string)
    ensures StartsWith(line, if dir + [name] in nodes && nodes[dir + [name]].Directory? then "[DIR]  " else "[FILE] ")
    ensures EndsWith(line, name + "\n")
  {
    var kind := if dir + [name] in nodes && nodes[dir + [name]].Directory? then "[DIR]  " else "[FILE] ";
    assert (kind + name + "\n")[..|kind|] == kind;
    assert (kind + name + "\n")[|kind|..] == name + "\n";
    kind + name + "\n"
  }

  /** The lines of the entries `names`, in that order. */
  function EntryLines(nodes: map<seq<string>, Node>, dir: seq<string>, names: seq<string>): string
  {
    if names == [] then ""
    else EntryLines(nodes, dir, names[..|names| - 1]) + EntryLine(nodes, dir, names[|names| - 1])
  }

  /** The listing a directory read returns: the header and one line per
      entry in ascending name order, cut at MAX_OUTPUT_CHARS. */
  ghost function Listing(nodes: map<seq<string>, Node>, dir: seq<string>): string
  {
    CodeExecution.TruncateOutput(ListingHeader(dir) + EntryLines(nodes, dir, SortedOf(Children(nodes, dir))))
  }

  /** How many characters the bounded read of a large file takes: a buffer
      of MAX_OUTPUT_CHARS, filled as far as the text goes. */
  function CharsRead(content: string): (n: nat)
    ensures n <= |content| && n <= MAX_OUTPUT_CHARS
    ensures n == MAX_OUTPUT_CHARS || n == |content|
  {
    if |content| < MAX_OUTPUT_CHARS then |content| else MAX_OUTPUT_CHARS
  }

  /** The note after the part of a large file that is shown. */
  function TruncationNote(size: nat, shown: nat): string
  {
    "\n[TRUNCATED: file is " + NatToString(size) + " bytes, showing first " + NatToString(shown) + " chars]"
  }

  /** Reading a file's text: whole when it has at most WHOLE_FILE_BYTES bytes
      of UTF-8, otherwise its first characters, as many as the buffer
      holds, and a note giving the size and how much is shown. */
  function ReadFile(content: string): ToolResult
  {
    var size := |Utf8.Encode(content)|;
    if size > WHOLE_FILE_BYTES then
      var shown := CharsRead(content);
      if shown <= 0 then ToolResults.Success("")
      else ToolResults.Success(content[..shown] + TruncationNote(size, shown))
    else ToolResults.Success(content)
  }

  /** What execute does for `input` on a file system whose entries are
      `nodes`, with the workspace at `root`. */
  ghost function ReadOutcome(root: seq<string>, input: Option<Json>, nodes: map<seq<string>, Node>): ToolOutcome
  {
    if input.None? || !Has(input.value, "path") then Threw(MISSING_FIELD_MESSAGE)
    else
      var filePath := AsText(Get(input.value, "path").value);
      match ResolvePath(root, filePath)
      case InvalidPath => Threw(INVALID_PATH_MESSAGE)
      case Outside => Returned(ToolResults.Error(AccessDenied(root)))
      case Inside(p) =>
        if p !in nodes then Returned(ToolResults.Error("File not found: " + filePath))
        else match nodes[p]
          case Directory => Returned(ToolResults.Success(Listing(nodes, p)))
          case File(content) => Returned(ReadFile(content))
  }

  /** One more entry line extends the listing by that entry. */
  lemma ListingStep(header: string, nodes: map<seq<string>, Node>, dir: seq<string>, names: seq<string>, i: nat)
    requires i < |names|
    ensures header + EntryLines(nodes, dir, names[..i]) + EntryLine(nodes, dir, names[i])
      == header + EntryLines(nodes, dir, names[..i + 1])
  {
    assert names[..i + 1][..i] == names[..i];
  }

  /** The directory branch of execute: the header, then one line per entry
      of `dir` as the sorted stream yields them. */
  method ListDirectory(nodes: map<seq<string>, Node>, dir: seq<string>) returns (listing: string)
    ensures listing == ListingHeader(dir) + EntryLines(nodes, dir, SortedOf(Children(nodes, dir)))
  {
    var names := SortNames(Children(nodes, dir));
    listing := ListingHeader(dir);
    for i := 0 to |names|
      invariant listing == ListingHeader(dir) + EntryLines(nodes, dir, names[..i])
    {
      ListingStep(ListingHeader(dir), nodes, dir, names, i);
      listing := listing + EntryLine(nodes, dir, names[i]);
    }
    assert names[..|names|] == names;
  }

  /** FileReadTool.execute. */
  method Execute(root: seq<string>, input: Option<Json>, fs: FileSystem) returns (o: ToolOutcome)
    requires fs.Valid()
    ensures o == ReadOutcome(root, input, fs.nodes)
  {
    if input.None? || !Has(input.value, "path") {
      return Threw(MISSING_FIELD_MESSAGE);
    }
    var filePath := AsText(Get(input.value, "path").value);
    var resolved := ResolvePath(root, filePath);
    if resolved.InvalidPath? {
      return Threw(INVALID_PATH_MESSAGE);
    }
    if resolved.Outside? {
      return Returned(ToolResults.Error(AccessDenied(root)));
    }
    var path := resolved.path;
    if path !in fs.nodes {
      return Returned(ToolResults.Error("File not found: " + filePath));
    }
    if fs.nodes[path].Directory? {
      var listing := ListDirectory(fs.nodes, path);
      return Returned(ToolResults.Success(CodeExecution.TruncateOutput(listing)));
    }
    return Returned(ReadFile(fs.nodes[path].content));
  }

  /** Each of the names has its line in the entry lines. */
  lemma {:induction false} EntryLinesShowEach(nodes: map<seq<string>, Node>, dir: seq<string>, names: seq<string>, k: nat)
    requires k < |names|
    ensures Contains(EntryLines(nodes, dir, names), EntryLine(nodes, dir, names[k]))
    decreases |names|
  {
    var init := names[..|names| - 1];
    var last := EntryLine(nodes, dir, names[|names| - 1]);
    if k == |names| - 1 {
      ContainsMiddle(EntryLines(nodes, dir, init), last, "");
      assert EntryLines(nodes, dir, init) + last + "" == EntryLines(nodes, dir, names);
    } else {
      assert names[k] == init[k];
      EntryLinesShowEach(nodes, dir, init, k);
      ContainsExtend(EntryLines(nodes, dir, init), EntryLine(nodes, dir, names[k]), last);
    }
  }

  /** A listing that fits shows every entry of the directory, marked as a
      directory exactly when it is one. */
  lemma ListingShowsEveryEntry(nodes: map<seq<string>, Node>, dir: seq<string>, name: string)
    requires dir + [name] in nodes
    requires |ListingHeader(dir) + EntryLines(nodes, dir, SortedOf(Children(nodes, dir)))| <= MAX_OUTPUT_CHARS
    ensures Contains(Listing(nodes, dir), EntryLine(nodes, dir, name))
  {
    var names := SortedOf(Children(nodes, dir));
    assert name in names;
    var k :| 0 <= k < |names| && names[k] == name;
    EntryLinesShowEach(nodes, dir, names, k);
    ContainsPrepend(ListingHeader(dir), EntryLines(nodes, dir, names), EntryLine(nodes, dir, name));
  }

  /** A file too large to read whole still has more than a quarter of its
      byte count in characters, so the partial read shows at least that
      many of its first characters, followed by the size note; the empty
      result for a read of nothing never occurs. */
  lemma LargeFileShowsPrefix(content: string)
    requires |Utf8.Encode(content)| > WHOLE_FILE_BYTES
    ensures var shown := CharsRead(content);
      && shown > WHOLE_FILE_BYTES / 4
      && !ReadFile(content).isError
      && StartsWith(ReadFile(content).output, content[..shown])
      && |ReadFile(content).output| > shown
  {
    var shown := CharsRead(content);
    var note := TruncationNote(|Utf8.Encode(content)|, shown);
    assert ReadFile(content).output == content[..shown] + note;
    assert (content[..shown] + note)[..shown] == content[..shown];
  }

  /** A file of at most WHOLE_FILE_BYTES bytes is returned exactly. */
  lemma SmallFileReadWhole(content: string)
    requires |Utf8.Encode(content)| <= WHOLE_FILE_BYTES
    ensures ReadFile(content) == ToolResults.Success(content)
  {
  }

  /** Only a path inside the workspace that exists can be read; a path
      outside is refused whatever the file system holds. */
  lemma ReadsOnlyInside(root: seq<string>, input: Option<Json>, nodes: map<seq<string>, Node>, other: map<seq<string>, Node>)
    requires input.Some? && Has(input.value, "path")
    ensures var o := ReadOutcome(root, input, nodes);
      var r := ResolvePath(root, AsText(Get(input.value, "path").value));
      && (o.Returned? && !o.result.isError ==> r.Inside? && Within(root, r.path) && r.path in nodes)
      && (r.Outside? ==> o == ReadOutcome(root, input, other) == Returned(ToolResults.Error(AccessDenied(root))))
  {
  }
}
