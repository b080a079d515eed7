/** The workspace the file tools are confined to: POSIX path parsing and
    normalisation as java.nio's UnixPath does them, the component-wise
    confinement check, and a file system of paths and nodes. */
module Workspace {
  import opened Common

  /** The names of a path string: the non-empty pieces between slashes, as
      UnixPath keeps them once repeated and trailing slashes are dropped. */
  function Names(s: string): (names: seq<string>)
    ensures forall i :: 0 <= i < |names| ==> names[i] != "" && '/' !in names[i]
    decreases |s|
  {
    match IndexOfChar(s, '/')
    case None => if s == [] then [] else [s]
    case Some(k) => (if k == 0 then [] else [s[..k]]) + Names(s[k + 1..])
  }

  /** Paths.get: a path is absolute when its text starts with '/'. */
  predicate IsAbsolute(s: string)
  {
    |s| > 0 && s[0] == '/'
  }

  /** A path is in normal form when no name is "." or "..". */
  predicate Clean(names: seq<string>)
  {
    forall i :: 0 <= i < |names| ==> names[i] != "." && names[i] != ".."
  }

  /** Path.normalize of an absolute path: "." names vanish, ".." removes the
      name before it, and ".." at the root stays at the root. */
  function Normalize(names: seq<string>): (r: seq<string>)
    ensures Clean(r)
    ensures |r| <= |names|
  {
    if names == [] then []
    else
      var before := Normalize(names[..|names| - 1]);
      var last := names[|names| - 1];
      if last == "." then before
      else if last == ".." then (if before == [] then [] else before[..|before| - 1])
      else before + [last]
  }

  /** A path already in normal form is its own normal form. */
  lemma {:induction false} NormalizeKeepsClean(names: seq<string>)
    requires Clean(names)
    ensures Normalize(names) == names
  {
    if names != [] {
      NormalizeKeepsClean(names[..|names| - 1]);
      assert names[..|names| - 1] + [names[|names| - 1]] == names;
    }
  }

  /** Normalising twice is normalising once. */
  lemma NormalizeIdempotent(names: seq<string>)
    ensures Normalize(Normalize(names)) == Normalize(names)
  {
    NormalizeKeepsClean(Normalize(names));
  }

  /** The names of a relative path without "..", with the "." names dropped. */
  function WithoutDots(names: seq<string>): (r: seq<string>)
    ensures forall n :: n in r ==> n in names && n != "."
  {
    if names == [] then []
    else
      var before := WithoutDots(names[..|names| - 1]);
      if names[|names| - 1] == "." then before else before + [names[|names| - 1]]
  }

  /** Below a normalised base, names without ".." only descend. */
  lemma {:induction false} NormalizeDescends(base: seq<string>, names: seq<string>)
    requires Clean(base)
    requires ".." !in names
    ensures Normalize(base + names) == base + WithoutDots(names)
  {
    if names == [] {
      assert base + names == base;
      NormalizeKeepsClean(base);
    } else {
      var init := names[..|names| - 1];
      assert (base + names)[..|base + names| - 1] == base + init;
      assert ".." !in init by {
        forall i | 0 <= i < |init| ensures init[i] != ".." { assert init[i] == names[i]; }
      }
      NormalizeDescends(base, init);
    }
  }

  /** Each ".." climbs one name, and never above the root. */
  lemma {:induction false} NormalizeClimbs(base: seq<string>, k: nat)
    requires Clean(base)
    ensures Normalize(base + seq(k, _ => "..")) == base[..if k <= |base| then |base| - k else 0]
  {
    if k == 0 {
      assert base + seq(k, _ => "..") == base;
      NormalizeKeepsClean(base);
    } else {
      var ups := seq(k, _ => "..");
      assert (base + ups)[..|base + ups| - 1] == base + seq(k - 1, _ => "..");
      NormalizeClimbs(base, k - 1);
    }
  }

  /** The path `p` lies at or below `root`, name by name (Path.startsWith). */
  predicate Within(root: seq<string>, p: seq<string>)
  {
    |root| <= |p| && p[..|root|] == root
  }

  /** The workspace root a tool is built with: made absolute against the
      working directory, then normalised (toAbsolutePath().normalize()). */
  function WorkspaceRoot(configured: string, cwd: seq<string>): (root: seq<string>)
    ensures Clean(root)
  {
    Normalize(if IsAbsolute(configured) then Names(configured) else cwd + Names(configured))
  }

  /** The outcome of resolvePath: Paths.get rejects a NUL character with an
      InvalidPathException; otherwise the normalised path, or null when it
      is not under the root. */
  datatype Resolution = InvalidPath | Outside | Inside(path: seq<string>)

  /** resolvePath: an absolute path is kept, a relative one is resolved
      against the root; the result is normalised and must lie within the
      root. */
  function ResolvePath(root: seq<string>, filePath: string): (r: Resolution)
    ensures r.InvalidPath? <==> '\0' in filePath
    ensures r.Inside? ==> Within(root, r.path) && Clean(r.path)
    ensures !r.InvalidPath? ==>
      var p := Normalize(if IsAbsolute(filePath) then Names(filePath) else root + Names(filePath));
      r == (if Within(root, p) then Inside(p) else Outside)
  {
    if '\0' in filePath then InvalidPath
    else
      var p := Normalize(if IsAbsolute(filePath) then Names(filePath) else root + Names(filePath));
      if Within(root, p) then Inside(p) else Outside
  }

  /** A relative path without ".." never leaves the workspace: it resolves to
      the root followed by its names other than ".". */
  lemma RelativeStaysInside(root: seq<string>, filePath: string)
    requires Clean(root)
    requires !IsAbsolute(filePath) && '\0' !in filePath
    requires ".." !in Names(filePath)
    ensures ResolvePath(root, filePath) == Inside(root + WithoutDots(Names(filePath)))
  {
    NormalizeDescends(root, Names(filePath));
  }

  /** Climbing out with ".." names alone always escapes a non-root workspace. */
  lemma ClimbingEscapes(root: seq<string>, filePath: string, k: nat)
    requires Clean(root) && root != []
    requires !IsAbsolute(filePath) && '\0' !in filePath
    requires k >= 1 && Names(filePath) == seq(k, _ => "..")
    ensures ResolvePath(root, filePath) == Outside
  {
    NormalizeClimbs(root, k);
  }

  /** An absolute path in normal form is accepted exactly when the root is
      one of its leading parts. */
  lemma AbsoluteCheckedAsIs(root: seq<string>, filePath: string)
    requires IsAbsolute(filePath) && '\0' !in filePath
    requires Clean(Names(filePath))
    ensures ResolvePath(root, filePath).Inside? <==> Within(root, Names(filePath))
  {
    NormalizeKeepsClean(Names(filePath));
  }

  /** Path.toString of an absolute path. */
  function Render(names: seq<string>): string
  {
    "/" + Join("/", names)
  }

  /** The first `c` after a stretch without one is where the stretch ends. */
  lemma {:induction false} FirstSeparator(a: string, c: char, rest: string)
    requires c !in a
    ensures IndexOfChar(a + [c] + rest, c) == Some(|a|)
  {
    if a != [] {
      assert (a + [c] + rest)[1..] == a[1..] + [c] + rest;
      FirstSeparator(a[1..], c, rest);
    }
  }

  /** Rendering a path and parsing it back gives the same names. */
  lemma {:induction false} NamesOfRender(names: seq<string>)
    requires forall i :: 0 <= i < |names| ==> names[i] != "" && '/' !in names[i]
    ensures Names(Render(names)) == names
  {
    var text := Join("/", names);
    assert Render(names) == [] + "/" + text;
    FirstSeparator([], '/', text);
    assert Render(names)[1..] == text;
    NamesOfJoin(names);
  }

  lemma {:induction false} NamesOfJoin(names: seq<string>)
    requires forall i :: 0 <= i < |names| ==> names[i] != "" && '/' !in names[i]
    ensures Names(Join("/", names)) == names
  {
    if |names| == 1 {
      assert IndexOfChar(names[0], '/') == None;
    } else if |names| > 1 {
      var rest := Join("/", names[1..]);
      assert Join("/", names) == names[0] + "/" + rest;
      FirstSeparator(names[0], '/', rest);
      assert (names[0] + "/" + rest)[..|names[0]|] == names[0];
      assert (names[0] + "/" + rest)[|names[0]| + 1..] == rest;
      NamesOfJoin(names[1..]);
      assert [names[0]] + names[1..] == names;
    }
  }

  /** The message of the InvalidPathException Paths.get throws for a NUL
      character; the Java runtime writes it, so it is left unspecified. */
  const INVALID_PATH_MESSAGE: string

  /** What a path names: a file with its text, or a directory. */
  datatype Node = File(content: string) | Directory

  /** The root directory exists and every ancestor of an entry is an
      existing directory. */
  predicate WellFormed(nodes: map<seq<string>, Node>)
  {
    && [] in nodes && nodes[[]].Directory?
    && forall p, i :: p in nodes && 0 <= i < |p| ==> p[..i] in nodes && nodes[p[..i]].Directory?
  }

  /** The names of the entries directly inside `dir`. */
  function Children(nodes: map<seq<string>, Node>, dir: seq<string>): (names: set<string>)
    ensures forall n :: n in names <==> dir + [n] in nodes
  {
    var names := set p | p in nodes && |p| == |dir| + 1 && p[..|dir|] == dir :: p[|dir|];
    assert forall n :: dir + [n] in nodes ==> n in names by {
      forall n | dir + [n] in nodes ensures n in names {
        var p := dir + [n];
        assert p[..|dir|] == dir && p[|dir|] == n;
      }
    }
    assert forall n :: n in names ==> dir + [n] in nodes by {
      forall n | n in names ensures dir + [n] in nodes {
        var p :| p in nodes && |p| == |dir| + 1 && p[..|dir|] == dir && p[|dir|] == n;
        assert p == dir + [n];
      }
    }
    names
  }

  /** Code-point lexicographic order of names: how Path.compareTo orders the
      entries of one directory. */
  predicate Below(a: string, b: string)
  {
    if a == [] then b != []
    else b != [] && (a[0] < b[0] || (a[0] == b[0] && Below(a[1..], b[1..])))
  }

  lemma {:induction false} BelowIrreflexive(a: string)
    ensures !Below(a, a)
  {
    if a != [] {
      BelowIrreflexive(a[1..]);
    }
  }

  lemma {:induction false} BelowAsymmetric(a: string, b: string)
    ensures !(Below(a, b) && Below(b, a))
  {
    if a != [] && b != [] {
      BelowAsymmetric(a[1..], b[1..]);
    }
  }

  lemma {:induction false} BelowTransitive(a: string, b: string, c: string)
    ensures Below(a, b) && Below(b, c) ==> Below(a, c)
  {
    if a != [] && b != [] && c != [] {
      BelowTransitive(a[1..], b[1..], c[1..]);
    }
  }

  lemma {:induction false} BelowTotal(a: string, b: string)
    ensures a == b || Below(a, b) || Below(b, a)
  {
    if a != [] && b != [] {
      BelowTotal(a[1..], b[1..]);
      if a[0] == b[0] && a[1..] == b[1..] {
        assert a == [a[0]] + a[1..] && b == [b[0]] + b[1..];
      }
    }
  }

  predicate StrictlySorted(s: seq<string>)
  {
    forall i, j :: 0 <= i < j < |s| ==> Below(s[i], s[j])
  }

  /** `x` put into its place in a sorted sequence that may already hold it. */
  function InsertName(x: string, s: seq<string>): (r: seq<string>)
    requires StrictlySorted(s)
    ensures StrictlySorted(r)
    ensures forall y :: y in r <==> y == x || y in s
  {
    if s == [] then [x]
    else if x == s[0] then s
    else if Below(x, s[0]) then
      forall j | 0 < j < |s| ensures Below(x, s[j]) {
        BelowTransitive(x, s[0], s[j]);
      }
      [x] + s
    else
      BelowTotal(x, s[0]);
      var r := [s[0]] + InsertName(x, s[1..]);
      forall j | 0 < j < |r| ensures Below(s[0], r[j]) {
        assert r[j] in InsertName(x, s[1..]);
        if r[j] != x {
          var k :| 0 <= k < |s[1..]| && s[1..][k] == r[j];
          assert s[k + 1] == r[j];
        }
      }
      r
  }

  /** A set of names in ascending order. */
  ghost function SortedOf(names: set<string>): (r: seq<string>)
    ensures StrictlySorted(r)
    ensures forall y :: y in r <==> y in names
    decreases |names|
  {
    if names == {} then []
    else
      var x :| x in names;
      InsertName(x, SortedOf(names - {x}))
  }

  /** The head of a sorted sequence is below every other element. */
  lemma LeastFirst(s: seq<string>, x: string)
    requires StrictlySorted(s) && x in s
    ensures s[0] == x || Below(s[0], x)
  {
    var k :| 0 <= k < |s| && s[k] == x;
    if k > 0 {
      assert Below(s[0], s[k]);
    }
  }

  /** There is one ascending order of a set of names. */
  lemma {:induction false} SortedUnique(a: seq<string>, b: seq<string>)
    requires StrictlySorted(a) && StrictlySorted(b)
    requires forall y :: y in a <==> y in b
    ensures a == b
  {
    assert b != [] ==> b[0] in a;
    if a != [] {
      assert a[0] in b;
      LeastFirst(b, a[0]);
      LeastFirst(a, b[0]);
      BelowAsymmetric(a[0], b[0]);
      BelowIrreflexive(a[0]);
      BelowIrreflexive(b[0]);
      forall y ensures y in a[1..] <==> y in b[1..] {
        if y in a[1..] {
          var k :| 0 <= k < |a[1..]| && a[1..][k] == y;
          assert Below(a[0], a[k + 1]);
        }
        if y in b[1..] {
          var k :| 0 <= k < |b[1..]| && b[1..][k] == y;
          assert Below(b[0], b[k + 1]);
        }
        assert y in a <==> y == a[0] || y in a[1..];
        assert y in b <==> y == b[0] || y in b[1..];
      }
      SortedUnique(a[1..], b[1..]);
      assert a == [a[0]] + a[1..] && b == [b[0]] + b[1..];
    }
  }

  /** entries.sorted(): the names, taken in whatever order the directory
      yields them, put in ascending order. */
  method SortNames(names: set<string>) returns (r: seq<string>)
    ensures r == SortedOf(names)
  {
    r := [];
    var rest := names;
    while rest != {}
      invariant rest <= names
      invariant StrictlySorted(r)
      invariant forall y :: y in r <==> y in names && y !in rest
      decreases |rest|
    {
      var x :| x in rest;
      r := InsertName(x, r);
      rest := rest - {x};
    }
    SortedUnique(r, SortedOf(names));
  }

  /** Every leading part of `dir`, from the root to `dir` itself. */
  function Prefixes(dir: seq<string>): (ps: set<seq<string>>)
    ensures forall i :: 0 <= i <= |dir| ==> dir[..i] in ps
    ensures forall p :: p in ps ==> |p| <= |dir| && p == dir[..|p|]
  {
    set i | 0 <= i <= |dir| :: dir[..i]
  }

  /** Some leading part of `dir` exists as a file. */
  predicate FileAlongPath(nodes: map<seq<string>, Node>, dir: seq<string>)
  {
    exists i :: 0 <= i <= |dir| && dir[..i] in nodes && nodes[dir[..i]].File?
  }

  /** The length of the deepest leading part of `dir`, among the first
      `i + 1`, that exists; the root always does. */
  function DeepestExisting(nodes: map<seq<string>, Node>, dir: seq<string>, i: nat): (k: nat)
    requires i <= |dir| && [] in nodes
    ensures k <= i && dir[..k] in nodes
    ensures forall j :: k < j <= i ==> dir[..j] !in nodes
    decreases i
  {
    if dir[..i] in nodes then i
    else
      assert i != 0 by { assert dir[..0] == []; }
      DeepestExisting(nodes, dir, i - 1)
  }

  /** The entries plus a directory for every missing leading part of `dir`. */
  function WithDirectories(nodes: map<seq<string>, Node>, dir: seq<string>): (r: map<seq<string>, Node>)
    ensures r.Keys == nodes.Keys + Prefixes(dir)
    ensures forall p :: p in nodes ==> r[p] == nodes[p]
    ensures forall p :: p in r && p !in nodes ==> r[p] == Directory
  {
    map p | p in nodes.Keys + Prefixes(dir) :: if p in nodes then nodes[p] else Directory
  }

  lemma PrefixesSnoc(dir: seq<string>, i: nat)
    requires i < |dir|
    ensures Prefixes(dir[..i + 1]) == Prefixes(dir[..i]) + {dir[..i + 1]}
  {
    var longer, shorter := Prefixes(dir[..i + 1]), Prefixes(dir[..i]);
    assert dir[..i + 1][..i + 1] == dir[..i + 1];
    forall p | p in longer ensures p in shorter || p == dir[..i + 1] {
      if |p| <= i {
        assert p == dir[..i][..|p|];
      }
    }
    forall p | p in shorter ensures p in longer {
      assert p == dir[..i + 1][..|p|];
    }
  }

  /** When the deepest existing leading part of `dir` is a directory, no
      leading part is a file and every existing one is already there. */
  lemma DeepestIsDirectory(nodes: map<seq<string>, Node>, dir: seq<string>, i: nat)
    requires WellFormed(nodes)
    requires i <= |dir| && dir[..i] in nodes && nodes[dir[..i]].Directory?
    requires forall j :: i < j <= |dir| ==> dir[..j] !in nodes
    ensures !FileAlongPath(nodes, dir)
    ensures nodes == WithDirectories(nodes, dir[..i])
  {
    forall j | 0 <= j < i ensures dir[..j] in nodes && nodes[dir[..j]].Directory? {
      assert dir[..j] == dir[..i][..j];
    }
    forall p | p in Prefixes(dir[..i]) ensures p in nodes {
      assert p == dir[..|p|];
    }
  }

  /** One more directory on the way down keeps the file system well formed. */
  lemma AddDirectory(start: map<seq<string>, Node>, nodes: map<seq<string>, Node>, dir: seq<string>, i: nat)
    requires i < |dir| && nodes == WithDirectories(start, dir[..i]) && WellFormed(nodes)
    requires dir[..i] in nodes && nodes[dir[..i]].Directory?
    requires dir[..i + 1] !in nodes
    ensures nodes[dir[..i + 1] := Directory] == WithDirectories(start, dir[..i + 1])
    ensures WellFormed(nodes[dir[..i + 1] := Directory])
  {
    PrefixesSnoc(dir, i);
    ExtendWellFormed(nodes, dir, i);
  }

  lemma ExtendWellFormed(nodes: map<seq<string>, Node>, dir: seq<string>, i: nat)
    requires i < |dir| && WellFormed(nodes)
    requires dir[..i] in nodes && nodes[dir[..i]].Directory?
    ensures WellFormed(nodes[dir[..i + 1] := Directory])
  {
    var next := dir[..i + 1];
    var m := nodes[next := Directory];
    forall p, j | p in m && 0 <= j < |p| ensures p[..j] in m && m[p[..j]].Directory? {
      if p == next {
        if j < i {
          assert p[..j] == dir[..i][..j];
        } else {
          assert p[..j] == dir[..i];
        }
      } else {
        assert p in nodes;
      }
    }
  }

  /** Why writing a file at `path` fails, if it does: `path` is a
      directory (the root is one), or its parent is missing or is a file. */
  function WriteFailure(nodes: map<seq<string>, Node>, path: seq<string>): (err: Option<IoError>)
    requires [] in nodes && nodes[[]].Directory?
    ensures err.None? <==> (path != [] && !(path in nodes && nodes[path].Directory?)
      && path[..|path| - 1] in nodes && nodes[path[..|path| - 1]].Directory?)
    ensures err.Some? && path != [] && !(path in nodes && nodes[path].Directory?) ==>
      err.value.at == path[..|path| - 1]
  {
    if path in nodes && nodes[path].Directory? then Some(IsADirectory(path))
    else if path[..|path| - 1] !in nodes then Some(NoSuchFile(path[..|path| - 1]))
    else if nodes[path[..|path| - 1]].File? then Some(NotADirectory(path[..|path| - 1]))
    else None
  }

  /** What an I/O call on the file system failed on: a file where a
      directory was needed, a directory where a file was needed, or a parent
      directory that does not exist. */
  datatype IoError = NotADirectory(at: seq<string>) | IsADirectory(at: seq<string>) | NoSuchFile(at: seq<string>)

  /** The file system under the workspace: each path that exists and what it
      names. */
  class FileSystem {
    var nodes: map<seq<string>, Node>

    ghost predicate Valid()
      reads this`nodes
    {
      WellFormed(nodes)
    }

    /** A file system holding only the root directory. */
    constructor ()
      ensures nodes == map[[] := Directory]
      ensures Valid()
    {
      nodes := map[[] := Directory];
    }

    /** Files.createDirectories: from the deepest leading part of `dir` that
        exists, create each missing directory downward. It fails, creating
        nothing, when that deepest part is a file. */
    method CreateDirectories(dir: seq<string>) returns (err: Option<IoError>)
      requires Valid()
      modifies this`nodes
      ensures Valid()
      ensures err.Some? <==> FileAlongPath(old(nodes), dir)
      ensures err.Some? ==> err.value == NotADirectory(dir[..DeepestExisting(old(nodes), dir, |dir|)])
      ensures err.Some? ==> nodes == old(nodes)
      ensures err.None? ==> nodes == WithDirectories(old(nodes), dir)
    {
      var i := DeepestExisting(nodes, dir, |dir|);
      if nodes[dir[..i]].File? {
        return Some(NotADirectory(dir[..i]));
      }
      DeepestIsDirectory(nodes, dir, i);
      ghost var start := nodes;
      while i < |dir|
        invariant 0 <= i <= |dir|
        invariant nodes == WithDirectories(start, dir[..i])
        invariant WellFormed(nodes)
        invariant dir[..i] in nodes && nodes[dir[..i]].Directory?
        invariant forall j :: i < j <= |dir| ==> dir[..j] !in nodes
      {
        AddDirectory(start, nodes, dir, i);
        nodes := nodes[dir[..i + 1] := Directory];
        i := i + 1;
      }
      assert dir[..i] == dir;
      err := None;
    }

    /** Files.writeString: the file at `path` holds exactly `content`
        afterwards, replacing any earlier text; when WriteFailure names a
        failure it changes nothing. */
    method WriteString(path: seq<string>, content: string) returns (err: Option<IoError>)
      requires Valid()
      modifies this`nodes
      ensures Valid()
      ensures err == WriteFailure(old(nodes), path)
      ensures err.None? ==> nodes == old(nodes)[path := File(content)]
      ensures err.Some? ==> nodes == old(nodes)
    {
      if path in nodes && nodes[path].Directory? {
        return Some(IsADirectory(path));
      }
      assert path != [];
      var parent := path[..|path| - 1];
      if parent !in nodes {
        return Some(NoSuchFile(parent));
      }
      if nodes[parent].File? {
        return Some(NotADirectory(parent));
      }
      forall p, j | p in nodes[path := File(content)] && 0 <= j < |p|
        ensures p[..j] in nodes && nodes[p[..j]].Directory?
      {
        if p == path && j < |parent| {
          assert p[..j] == parent[..j];
        }
      }
      nodes := nodes[path := File(content)];
      err := None;
    }
  }
}
