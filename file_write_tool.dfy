/** The file_write tool: store text in a file whose path is confined to the
    workspace, creating the missing parent directories first. */
module FileWrite {
  import opened Common
  import opened JsonValues
  import opened ToolResults
  import opened Workspace
  import FileRead
  import Utf8

  /** What one call of execute leaves behind: its outcome and the entries of
      the file system afterwards. */
  datatype Step = Step(outcome: ToolOutcome, nodes: map<seq<string>, Node>)

  /** Files.createDirectories(path.getParent()) when there is a parent,
      then Files.writeString(path, content): the first failure, if any, and
      the entries afterwards. */
  function Store(nodes: map<seq<string>, Node>, path: seq<string>, content: string): (r: (Option<IoError>, map<seq<string>, Node>))
    requires WellFormed(nodes)
  {
    if path == [] then (WriteFailure(nodes, path), nodes)
    else
      var parent := path[..|path| - 1];
      if FileAlongPath(nodes, parent) then
        (Some(NotADirectory(parent[..DeepestExisting(nodes, parent, |parent|)])), nodes)
      else
        var created := WithDirectories(nodes, parent);
        match WriteFailure(created, path)
        case Some(e) => (Some(e), created)
        case None => (None, created[path := File(content)])
  }

  /** The message of a successful write. */
  function Wrote(content: string, path: seq<string>): string
  {
    "Successfully wrote " + NatToString(|content|) + " chars to " + Render(path)
  }

  /** The message of a failed write, around the exception's message. */
  function WriteFailed(message: string): string
  {
    "Failed to write file: " + message
  }

  /** What execute does for `input` on a file system whose entries are
      `nodes`, with the workspace at `root`; `describe` is the message of the
      IOException the JDK raises for a failure. */
  function WriteStep(root: seq<string>, input: Option<Json>, nodes: map<seq<string>, Node>, describe: IoError -> string): Step
    requires WellFormed(nodes)
  {
    if input.None? || !Has(input.value, "path") || !Has(input.value, "content") then
      Step(Threw(MISSING_FIELD_MESSAGE), nodes)
    else
      var filePath := AsText(Get(input.value, "path").value);
      var content := AsText(Get(input.value, "content").value);
      match ResolvePath(root, filePath)
      case InvalidPath => Step(Threw(INVALID_PATH_MESSAGE), nodes)
      case Outside => Step(Returned(ToolResults.Error(FileRead.AccessDenied(root))), nodes)
      case Inside(p) =>
        var (err, after) := Store(nodes, p, content);
        match err
        case Some(e) => Step(Returned(ToolResults.Error(WriteFailed(describe(e)))), after)
        case None => Step(Returned(ToolResults.Success(Wrote(content, p))), after)
  }

  /** FileWriteTool.execute. */
  method Execute(root: seq<string>, input: Option<Json>, fs: FileSystem, describe: IoError -> string) returns (o: ToolOutcome)
    requires fs.Valid()
    modifies fs`nodes
    ensures fs.Valid()
    ensures Step(o, fs.nodes) == WriteStep(root, input, old(fs.nodes), describe)
  {
    if input.None? || !Has(input.value, "path") {
      return Threw(MISSING_FIELD_MESSAGE);
    }
    var filePath := AsText(Get(input.value, "path").value);
    if !Has(input.value, "content") {
      return Threw(MISSING_FIELD_MESSAGE);
    }
    var content := AsText(Get(input.value, "content").value);
    var resolved := ResolvePath(root, filePath);
    if resolved.InvalidPath? {
      return Threw(INVALID_PATH_MESSAGE);
    }
    if resolved.Outside? {
      return Returned(ToolResults.Error(FileRead.AccessDenied(root)));
    }
    var path := resolved.path;
    if path != [] {
      var err := fs.CreateDirectories(path[..|path| - 1]);
      if err.Some? {
        return Returned(ToolResults.Error(WriteFailed(describe(err.value))));
      }
    }
    var err := fs.WriteString(path, content);
    if err.Some? {
      return Returned(ToolResults.Error(WriteFailed(describe(err.value))));
    }
    return Returned(ToolResults.Success(Wrote(content, path)));
  }

  /** Creating the directories along `dir`, when no file is in the way,
      leaves a well-formed file system in which `dir` is a directory. */
  lemma CreatedWellFormed(nodes: map<seq<string>, Node>, dir: seq<string>)
    requires WellFormed(nodes) && !FileAlongPath(nodes, dir)
    ensures WellFormed(WithDirectories(nodes, dir))
    ensures dir in WithDirectories(nodes, dir) && WithDirectories(nodes, dir)[dir].Directory?
  {
    var m := WithDirectories(nodes, dir);
    forall p, j | p in m && 0 <= j < |p| ensures p[..j] in m && m[p[..j]].Directory? {
      if p !in nodes {
        assert p == dir[..|p|];
        assert p[..j] == dir[..j];
        assert dir[..j] in Prefixes(dir);
      }
    }
    assert dir[..|dir|] == dir;
  }

  /** When every leading part of `dir` exists, creating them changes nothing. */
  lemma NothingToCreate(nodes: map<seq<string>, Node>, dir: seq<string>)
    requires forall j :: 0 <= j <= |dir| ==> dir[..j] in nodes
    ensures WithDirectories(nodes, dir) == nodes
  {
    forall p | p in Prefixes(dir) ensures p in nodes {
      assert p == dir[..|p|];
    }
  }

  /** The effect of storing: it fails exactly when `path` is the root or a
      directory, or a file lies along its parent; a failure changes
      nothing, and a success adds the missing parent directories and the
      file holding exactly `content`. */
  lemma StoreEffect(nodes: map<seq<string>, Node>, path: seq<string>, content: string)
    requires WellFormed(nodes)
    ensures var (err, after) := Store(nodes, path, content);
      && WellFormed(after)
      && (err.None? <==> (path != [] && !FileAlongPath(nodes, path[..|path| - 1])
          && !(path in nodes && nodes[path].Directory?)))
      && (err.Some? ==> after == nodes)
      && (err.None? ==> after == WithDirectories(nodes, path[..|path| - 1])[path := File(content)])
  {
    if path != [] {
      var parent := path[..|path| - 1];
      if !FileAlongPath(nodes, parent) {
        CreatedWellFormed(nodes, parent);
        var created := WithDirectories(nodes, parent);
        assert path !in Prefixes(parent);
        if path in nodes && nodes[path].Directory? {
          forall j | 0 <= j <= |parent| ensures parent[..j] in nodes {
            assert parent[..j] == path[..j];
          }
          NothingToCreate(nodes, parent);
        } else {
          ExtendWithFile(created, path, content);
        }
      }
    }
  }

  /** A file whose parent is a directory keeps a file system well formed. */
  lemma ExtendWithFile(nodes: map<seq<string>, Node>, path: seq<string>, content: string)
    requires WellFormed(nodes) && path != []
    requires path[..|path| - 1] in nodes && nodes[path[..|path| - 1]].Directory?
    requires !(path in nodes && nodes[path].Directory?)
    ensures WellFormed(nodes[path := File(content)])
  {
    var m := nodes[path := File(content)];
    forall p, j | p in m && 0 <= j < |p| ensures p[..j] in m && m[p[..j]].Directory? {
      if p == path {
        if j < |path| - 1 {
          assert p[..j] == path[..|path| - 1][..j];
        } else {
          assert p[..j] == path[..|path| - 1];
        }
      } else {
        assert p in nodes;
      }
    }
  }

  /** A write that does not succeed, for whatever reason, leaves the file
      system as it was. */
  lemma FailedWriteChangesNothing(root: seq<string>, input: Option<Json>, nodes: map<seq<string>, Node>, describe: IoError -> string)
    requires WellFormed(nodes)
    requires var o := WriteStep(root, input, nodes, describe).outcome; o.Threw? || o.result.isError
    ensures WriteStep(root, input, nodes, describe).nodes == nodes
  {
    if input.Some? && Has(input.value, "path") && Has(input.value, "content") {
      var r := ResolvePath(root, AsText(Get(input.value, "path").value));
      if r.Inside? {
        StoreEffect(nodes, r.path, AsText(Get(input.value, "content").value));
      }
    }
  }

  /** A successful store touches only `path` and its leading parts. */
  lemma StoreConfined(nodes: map<seq<string>, Node>, path: seq<string>, content: string)
    requires WellFormed(nodes) && Store(nodes, path, content).0.None?
    ensures var after := Store(nodes, path, content).1;
      && path in after && after[path] == File(content)
      && (forall q :: q in nodes ==> q in after)
      && (forall q :: q in nodes && q != path ==> after[q] == nodes[q])
      && (forall q :: q in after && q !in nodes ==> q in Prefixes(path) && (q != path ==> after[q] == Directory))
  {
    StoreEffect(nodes, path, content);
    var parent := path[..|path| - 1];
    forall q | q in Prefixes(parent) ensures q in Prefixes(path) {
      assert q == path[..|q|];
    }
    assert path[..|path|] == path;
  }

  /** A successful write touches only the target and its leading parts:
      the target, inside the workspace, holds exactly the content, every
      other existing entry is kept as it was, and each new entry is a
      directory on the way to the target. */
  lemma SuccessfulWriteConfined(root: seq<string>, input: Option<Json>, nodes: map<seq<string>, Node>, describe: IoError -> string)
    requires WellFormed(nodes)
    requires var o := WriteStep(root, input, nodes, describe).outcome; o.Returned? && !o.result.isError
    ensures input.Some? && Has(input.value, "path") && Has(input.value, "content")
    ensures var r := ResolvePath(root, AsText(Get(input.value, "path").value));
      var after := WriteStep(root, input, nodes, describe).nodes;
      && r.Inside? && Within(root, r.path)
      && r.path in after && after[r.path] == File(AsText(Get(input.value, "content").value))
      && (forall q :: q in nodes ==> q in after)
      && (forall q :: q in nodes && q != r.path ==> after[q] == nodes[q])
      && (forall q :: q in after && q !in nodes ==> q in Prefixes(r.path) && (q != r.path ==> after[q] == Directory))
  {
    var r := ResolvePath(root, AsText(Get(input.value, "path").value));
    var content := AsText(Get(input.value, "content").value);
    assert Store(nodes, r.path, content).0.None?;
    assert WriteStep(root, input, nodes, describe).nodes == Store(nodes, r.path, content).1;
    StoreConfined(nodes, r.path, content);
  }

  /** What a successful write stores, a read of the same path gives back,
      when the text is small enough to be read whole. */
  lemma WriteThenRead(root: seq<string>, filePath: string, content: string, nodes: map<seq<string>, Node>, describe: IoError -> string)
    requires WellFormed(nodes)
    requires var o := WriteStep(root, Some(JObj(map["path" := JStr(filePath), "content" := JStr(content)])), nodes, describe).outcome;
      o.Returned? && !o.result.isError
    requires |Utf8.Encode(content)| <= FileRead.WHOLE_FILE_BYTES
    ensures var after := WriteStep(root, Some(JObj(map["path" := JStr(filePath), "content" := JStr(content)])), nodes, describe).nodes;
      FileRead.ReadOutcome(root, Some(JObj(map["path" := JStr(filePath)])), after) == Returned(ToolResults.Success(content))
  {
    var input := Some(JObj(map["path" := JStr(filePath), "content" := JStr(content)]));
    SuccessfulWriteConfined(root, input, nodes, describe);
    FileRead.SmallFileReadWhole(content);
  }
}
